/**
 What typing comes to: lines, erased keys, and answers to password prompts, which are
 recorded nowhere.
 */
module CommandTyping {
  import opened Bytes
  import opened Strings
  import opened CommandRecorder

  /** A key that adds itself to the line. */
  predicate Printable(key: char)
  {
    key == '\t' || (' ' <= key && key != '\U{007F}')
  }

  predicate Erases(key: char)
  {
    key == '\U{0008}' || key == '\U{007F}'
  }

  predicate Enters(key: char)
  {
    key == '\r' || key == '\n'
  }

  predicate AllPrintable(keys: string)
  {
    forall i | 0 <= i < |keys| :: Printable(keys[i])
  }

  predicate NoEnter(keys: string)
  {
    forall i | 0 <= i < |keys| :: !Enters(keys[i])
  }

  /** White space by code point. */
  predicate White(c: char)
  {
    var n := c as int;
    || 9 <= n <= 13 || n == 32 || n == 0x85 || n == 0xA0 || n == 0x1680 || 0x2000 <= n <= 0x200A
    || n == 0x2028 || n == 0x2029 || n == 0x202F || n == 0x205F || n == 0x3000
  }

  predicate AllWhite(s: string)
  {
    forall i | 0 <= i < |s| :: White(s[i])
  }

  /** The line with its tabs as spaces. */
  predicate Untabbed(line: string, s: string)
  {
    |s| == |line| && forall i | 0 <= i < |line| :: s[i] == if line[i] == '\t' then ' ' else line[i]
  }

  /** What is left of a text without the white space around it. */
  predicate Core(s: string, core: string)
  {
    && (core != "" ==> !White(core[0]) && !White(core[|core| - 1]))
    && exists i, j | 0 <= i <= j <= |s| :: s[i..j] == core && AllWhite(s[..i]) && AllWhite(s[j..])
  }

  /** The command a line stands for. */
  ghost predicate Stands(line: string, command: string)
  {
    exists s: string :: Untabbed(line, s) && Core(s, command)
  }

  // --------------------------------------------------------------------- trimming

  lemma SpaceIsWhite(c: char)
    ensures IsSpace(c) <==> White(c)
  {
  }

  lemma {:induction false} LeftIsWhite(s: string)
    ensures AllWhite(s[..|s| - |TrimLeft(s)|])
    decreases |s|
  {
    if s != "" && IsSpace(s[0]) {
      SpaceIsWhite(s[0]);
      LeftIsWhite(s[1..]);
      assert s[..|s| - |TrimLeft(s)|] == [s[0]] + s[1..][..|s| - 1 - |TrimLeft(s)|];
    }
  }

  lemma {:induction false} RightIsWhite(s: string)
    ensures AllWhite(s[|TrimRight(s)|..])
    decreases |s|
  {
    if s != "" && IsSpace(s[|s| - 1]) {
      SpaceIsWhite(s[|s| - 1]);
      RightIsWhite(s[..|s| - 1]);
      assert s[|TrimRight(s)|..] == s[..|s| - 1][|TrimRight(s)|..] + [s[|s| - 1]];
    }
  }

  lemma TrimIsCore(s: string)
    ensures Core(s, Trim(s))
  {
    hide TrimLeft, TrimRight, White, IsSpace, AllWhite;
    var left := TrimLeft(s);
    LeftIsWhite(s);
    RightIsWhite(left);
    var c := Trim(s);
    if c != "" {
      SpaceIsWhite(c[0]);
      SpaceIsWhite(c[|c| - 1]);
    }
    var i := |s| - |left|;
    assert s[i..i + |c|] == left[..|c|] == c && s[i + |c|..] == left[|c|..];
  }

  lemma CommandStands(line: string)
    ensures Stands(line, CommandOf(line))
  {
    TrimIsCore(TabsToSpaces(line));
    assert Untabbed(line, TabsToSpaces(line));
  }

  /** Nothing but white space stands for nothing. */
  lemma BlankExactlyWhen(line: string)
    ensures CommandOf(line) == "" <==> AllWhite(line)
  {
    hide White, Trim;
    var s := TabsToSpaces(line);
    TrimIsCore(s);
    TabIsWhite();
    assert AllWhite(line) <==> AllWhite(s) by {
      assert forall i | 0 <= i < |s| :: White(s[i]) <==> White(line[i]);
    }
    var i, j :| 0 <= i <= j <= |s| && s[i..j] == CommandOf(line) && AllWhite(s[..i]) && AllWhite(s[j..]);
    if CommandOf(line) == "" {
      assert s == s[..i] + s[j..];
    } else {
      assert s[i] == CommandOf(line)[0];
    }
  }

  lemma TabIsWhite()
    ensures White('\t') && White(' ')
  {
  }

  // ------------------------------------------------------------------------- keys

  lemma OneKey(t: Typing, key: char, redact: string -> string)
    ensures Type(t, [key], redact) == Press(t, key, redact)
  {
    assert [key][1..] == "";
  }

  /** Printable keys are the line. */
  lemma {:induction false} PrintableKeysAdd(t: Typing, keys: string, redact: string -> string)
    requires AllPrintable(keys)
    ensures Type(t, keys, redact) == t.(line := t.line + keys)
    decreases |keys|
  {
    hide CommandOf;
    if keys == "" {
      assert t.line + keys == t.line;
    } else {
      PrintableKeysAdd(t.(line := t.line + [keys[0]]), keys[1..], redact);
      assert t.line + [keys[0]] + keys[1..] == t.line + keys;
    }
  }

  /** A key that is erased at once is no key at all. */
  lemma ErasedKeysAreNone(t: Typing, before: string, key: char, erase: char, after: string, redact: string -> string)
    requires Printable(key) && Erases(erase)
    ensures Type(t, before + [key, erase] + after, redact) == Type(t, before + after, redact)
  {
    hide Type, CommandOf;
    var u := Type(t, before, redact);
    TypeConcat(t, before + [key, erase], after, redact);
    TypeConcat(t, before, [key, erase], redact);
    TypeConcat(t, before, after, redact);
    TypeConcat(u, [key], [erase], redact);
    assert [key] + [erase] == [key, erase];
    OneKey(u, key, redact);
    OneKey(u.(line := u.line + [key]), erase, redact);
    assert (u.line + [key])[..|u.line|] == u.line;
  }

  /** Erasing in an empty line, and other control keys, do nothing. */
  lemma OtherKeysDoNothing(t: Typing, key: char, redact: string -> string)
    requires (Erases(key) && t.line == "") || (key < ' ' && !Enters(key) && !Erases(key) && key != '\t')
    ensures Type(t, [key], redact) == t
  {
    OneKey(t, key, redact);
  }

  /** Before Enter nothing is taken up, and a prompt stays pending. */
  lemma {:induction false} KeysWait(t: Typing, keys: string, redact: string -> string)
    requires NoEnter(keys)
    ensures var u := Type(t, keys, redact); u.secret == t.secret && u.commands == t.commands
    decreases |keys|
  {
    hide CommandOf;
    if keys != "" {
      KeysWait(Press(t, keys[0], redact), keys[1..], redact);
    }
  }

  lemma EnterEnds(t: Typing, keys: string, enter: char, redact: string -> string)
    requires Enters(enter)
    ensures Type(t, keys + [enter], redact) == Press(Type(t, keys, redact), enter, redact)
  {
    TypePush(t, keys, enter, redact);
  }

  // ---------------------------------------------------------------------- results

  /** A line that is entered becomes one command, trimmed, its tabs as spaces and redacted; a blank one becomes none. */
  lemma LinesBecomeCommands(t: Typing, keys: string, enter: char, redact: string -> string) returns (command: string)
    requires !t.secret && NoEnter(keys) && Enters(enter)
    ensures Stands(Type(t, keys, redact).line, command)
    ensures Type(t, keys + [enter], redact) ==
            Typing("", false, t.commands + if command == "" then [] else [redact(command)])
  {
    hide Type, CommandOf;
    var u := Type(t, keys, redact);
    KeysWait(t, keys, redact);
    EnterEnds(t, keys, enter, redact);
    command := CommandOf(u.line);
    CommandStands(u.line);
    assert t.commands + [] == t.commands;
  }

  /** So printable keys and Enter, on an empty line, give exactly their own command. */
  lemma TypedText(t: Typing, keys: string, enter: char, redact: string -> string) returns (command: string)
    requires !t.secret && t.line == "" && AllPrintable(keys) && Enters(enter)
    ensures Stands(keys, command)
    ensures Type(t, keys + [enter], redact) == t.(commands := t.commands + if command == "" then [] else [redact(command)])
  {
    hide Type, Stands;
    PrintableKeysAdd(t, keys, redact);
    assert "" + keys == keys;
    command := LinesBecomeCommands(t, keys, enter, redact);
  }

  /** With a prompt pending, a line that is not blank is dropped and the prompt is answered; a blank one changes nothing. */
  lemma AnswersAreDropped(t: Typing, keys: string, enter: char, redact: string -> string)
    requires t.secret && NoEnter(keys) && Enters(enter)
    ensures Type(t, keys + [enter], redact) == Typing("", AllWhite(Type(t, keys, redact).line), t.commands)
  {
    hide Type, CommandOf, AllWhite;
    var u := Type(t, keys, redact);
    KeysWait(t, keys, redact);
    EnterEnds(t, keys, enter, redact);
    BlankExactlyWhen(u.line);
  }

  /** A prompt is pending after output that is recognised as one. */
  lemma PromptsArePending(t: Transcript, calls: seq<Call>, data: bytes, redact: string -> string, prompts: bytes -> bool)
    requires data != [] && prompts(data)
    ensures ListenAll(t, calls + [Output(data)], redact, prompts).typing.secret
    ensures ListenAll(t, calls + [Prompt], redact, prompts).typing.secret
  {
    assert (calls + [Output(data)])[..|calls|] == calls && (calls + [Prompt])[..|calls|] == calls;
  }

  lemma {:induction false} ListenConcat(t: Transcript, a: seq<Call>, b: seq<Call>, redact: string -> string, prompts: bytes -> bool)
    ensures ListenAll(t, a + b, redact, prompts) == ListenAll(ListenAll(t, a, redact, prompts), b, redact, prompts)
    decreases |b|
  {
    hide Listen;
    if b == [] {
      assert a + b == a;
    } else {
      ListenConcat(t, a, b[..|b| - 1], redact, prompts);
      assert (a + b)[..|a + b| - 1] == a + b[..|b| - 1];
    }
  }

  /** The answer to a prompt, as it is typed: not blank, and ended by Enter. */
  predicate Answer(t: Typing, keys: string, redact: string -> string)
  {
    && keys != "" && Enters(keys[|keys| - 1]) && NoEnter(keys[..|keys| - 1])
    && !AllWhite(Type(t, keys[..|keys| - 1], redact).line)
  }

  lemma AnswerIsDropped(t: Typing, keys: string, redact: string -> string)
    requires t.secret && Answer(t, keys, redact)
    ensures Type(t, keys, redact) == Typing("", false, t.commands)
  {
    hide Type, AllWhite;
    AnswersAreDropped(t, keys[..|keys| - 1], keys[|keys| - 1], redact);
    assert keys[..|keys| - 1] + [keys[|keys| - 1]] == keys;
  }

  /** Two sessions that differ only in the answer to a prompt hear the same commands and the same outputs. */
  lemma AnswersDoNotShow(t: Transcript, before: seq<Call>, a: string, b: string, after: seq<Call>,
      redact: string -> string, prompts: bytes -> bool)
    requires var u := ListenAll(t, before, redact, prompts).typing; u.secret && Answer(u, a, redact) && Answer(u, b, redact)
    ensures ListenAll(t, before + [Keys(a)] + after, redact, prompts) == ListenAll(t, before + [Keys(b)] + after, redact, prompts)
  {
    hide ListenAll, Answer, Type;
    var u := ListenAll(t, before, redact, prompts);
    AnswerIsDropped(u.typing, a, redact);
    AnswerIsDropped(u.typing, b, redact);
    forall keys | keys == a || keys == b
      ensures ListenAll(u, [Keys(keys)], redact, prompts) == Listen(u, Keys(keys), redact, prompts)
      ensures ListenAll(t, before + [Keys(keys)] + after, redact, prompts) ==
              ListenAll(ListenAll(u, [Keys(keys)], redact, prompts), after, redact, prompts)
    {
      ListenOne(u, Keys(keys), redact, prompts);
      ListenConcat(t, before + [Keys(keys)], after, redact, prompts);
      ListenConcat(t, before, [Keys(keys)], redact, prompts);
    }
  }

  lemma ListenOne(t: Transcript, call: Call, redact: string -> string, prompts: bytes -> bool)
    ensures ListenAll(t, [call], redact, prompts) == Listen(t, call, redact, prompts)
  {
    hide Listen;
    assert [call][..0] == [];
    assert ListenAll(t, [], redact, prompts) == t;
  }

  /** A recorder at the start of a session in which no write is going to fail. */
  ghost predicate Starting(r: Recorder)
    reads r, r.disk, r.output
  {
    r.Valid() && r.fileOpen && !r.failed && r.accepted == [] && r.NoFaults() && r.output != null && r.hasSink
  }

  ghost function Footprint(r: Recorder): set<object>
    reads r
  {
    {r, r.disk} + if r.output == null then {} else {r.output}
  }

  /** The two sessions themselves: file and sink end up with the same commands, and the output file with the same sections. */
  method AnswersAreNotRecorded(r: Recorder, s: Recorder, before: seq<Call>, a: string, b: string, after: seq<Call>)
    requires Starting(r) && Starting(s) && Footprint(r) !! Footprint(s)
    requires r.redact == s.redact && r.prompts == s.prompts && r.line == s.line && r.sensitivePrompt == s.sensitivePrompt
    requires var u := ListenAll(Transcript(Typing(r.line, r.sensitivePrompt, []), []), before, r.redact, r.prompts).typing;
             u.secret && Answer(u, a, r.redact) && Answer(u, b, r.redact)
    modifies Footprint(r), Footprint(s)
    ensures Commands(r.file) == Commands(s.file) == r.sink == s.sink
    ensures Outputs(r.file, Nothing, r.disk.content) == Outputs(s.file, Nothing, s.disk.content)
  {
    hide ListenAll, Answer, Type, HearAll, Outputs, Recorder.LogsOk, Recorder.OutputOk;
    ghost var t := Transcript(Typing(r.line, r.sensitivePrompt, []), []);
    AnswersDoNotShow(t, before, a, b, after, r.redact, r.prompts);
    ListenHears(t, before + [Keys(a)] + after, r.redact, r.prompts);
    ListenHears(t, before + [Keys(b)] + after, r.redact, r.prompts);
    var _ := Session(r, before + [Keys(a)] + after);
    var _ := Session(s, before + [Keys(b)] + after);
  }
}
