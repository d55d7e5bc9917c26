/**
 The byte machine of the streaming SQL redactor: sixteen states, one byte at a
 time, where a byte may be handed to the next state without being consumed.
 */
module SqlRedactor {
  import opened Bytes

  /** "[REDACTED]" */
  const MARKER: bytes := [91, 82, 69, 68, 65, 67, 84, 69, 68, 93]

  const MAX_IDENTIFIER_BYTES: nat := 256
  const MAX_DOLLAR_TAG_BYTES: nat := 65536

  datatype State =
    | Normal
    | Dash
    | Slash
    | Quoted
    | QuotePending
    | LineComment
    | BlockComment
    | BlockStar
    | DollarCandidate
    | DollarBody
    | Numeric
    | Identifier
    | SensitiveSeparator
    | SensitiveB
    | SensitiveValueStart
    | SensitiveValue

  datatype Machine = Machine(
    state: State,
    quote: byte,
    escaped: bool,
    previous: byte,
    dollarTag: bytes,
    dollarMatch: nat,
    identifier: bytes,
    sensitiveParts: int)
  {
    /** What every reachable machine satisfies; without it a buffer index could be out of range. */
    predicate Valid() {
      match state
      case DollarCandidate => OpenTag(dollarTag)
      case DollarBody => ClosedTag(dollarTag) && dollarMatch < |dollarTag|
      case Identifier => 1 <= |identifier| <= MAX_IDENTIFIER_BYTES && forall i | 0 <= i < |identifier| ::
          IdentifierPart(identifier[i])
      case Quoted => IsQuote(quote)
      case QuotePending => IsQuote(quote)
      case _ => true
    }
  }

  /** The machine a new redactor starts with: every field at its zero value. */
  const START: Machine := Machine(Normal, 0, false, 0, [], 0, [], 0)

  predicate IsQuote(b: byte) { b == SQUOTE || b == DQUOTE }

  predicate IdentifierStart(b: byte) { b == UNDERSCORE || IsLower(b) || IsUpper(b) }

  predicate IdentifierPart(b: byte) { IdentifierStart(b) || IsDigit(b) || b == DOLLAR }

  predicate ValuePart(b: byte) { IdentifierPart(b) || b == DOT || b == SLASH || b == PLUS || b == DASH }

  predicate StartsNumber(previous: byte, b: byte) {
    IsDigit(b) && !IdentifierPart(previous) && previous != DOLLAR
  }

  predicate NumberPart(b: byte) {
    IsDigit(b) || 97 <= b <= 102 || 65 <= b <= 70 || b == DOT || b == 120 || b == 88 || b == PLUS || b == DASH
  }

  /** A dollar-quote tag still being read: `$` and then identifier bytes other than `$`. */
  predicate OpenTag(t: bytes) {
    1 <= |t| <= MAX_DOLLAR_TAG_BYTES && t[0] == DOLLAR && forall i | 1 <= i < |t| :: t[i] != DOLLAR && IdentifierPart(t[i])
  }

  /** A complete tag: `$` at both ends and nowhere else. */
  predicate ClosedTag(t: bytes) {
    2 <= |t| && OpenTag(t[..|t| - 1]) && t[|t| - 1] == DOLLAR
  }

  const PASSWORD: bytes := [112, 97, 115, 115, 119, 111, 114, 100]
  const PASSWD: bytes := [112, 97, 115, 115, 119, 100]
  const PWD: bytes := [112, 119, 100]
  const SECRET: bytes := [115, 101, 99, 114, 101, 116]
  const TOKEN: bytes := [116, 111, 107, 101, 110]
  const AUTHORIZATION: bytes := [97, 117, 116, 104, 111, 114, 105, 122, 97, 116, 105, 111, 110]
  const API_KEY: bytes := [97, 112, 105, 95, 107, 101, 121]
  const ACCESS_TOKEN: bytes := [97, 99, 99, 101, 115, 115, 95] + TOKEN
  const REFRESH_TOKEN: bytes := [114, 101, 102, 114, 101, 115, 104, 95] + TOKEN
  const CLIENT_SECRET: bytes := [99, 108, 105, 101, 110, 116, 95] + SECRET

  predicate SensitiveKey(id: bytes) {
    || EqualFold(id, PASSWORD) || EqualFold(id, PASSWD) || EqualFold(id, PWD)
    || EqualFold(id, SECRET) || EqualFold(id, TOKEN) || EqualFold(id, AUTHORIZATION)
    || EqualFold(id, API_KEY) || EqualFold(id, ACCESS_TOKEN) || EqualFold(id, REFRESH_TOKEN)
    || EqualFold(id, CLIENT_SECRET)
  }

  const LINE_COMMENT: bytes := [DASH, DASH, SPACE] + MARKER
  const HASH_COMMENT: bytes := [HASH, SPACE] + MARKER
  const BLOCK_COMMENT: bytes := [SLASH, STAR, SPACE] + MARKER + [SPACE, STAR, SLASH]

  /** One turn of the loop: the next machine, what it writes, and whether the byte is looked at again. */
  datatype Turn = Turn(next: Machine, out: bytes, again: bool)

  function TurnNormal(m: Machine, b: byte): (t: Turn)
    requires m.state == Normal
    ensures t.next.Valid()
    ensures t.again ==> t.next.state == Numeric && NumberPart(b)
  {
    if IsQuote(b) then Turn(m.(quote := b, escaped := false, state := Quoted), [b] + MARKER, false)
    else if b == DASH then Turn(m.(state := Dash), [], false)
    else if b == SLASH then Turn(m.(state := Slash), [], false)
    else if b == HASH then Turn(m.(state := LineComment), HASH_COMMENT, false)
    else if IdentifierStart(b) then Turn(m.(identifier := [b], state := Identifier), [], false)
    else if b == DOLLAR then Turn(m.(dollarTag := [DOLLAR], state := DollarCandidate), [], false)
    else if StartsNumber(m.previous, b) then Turn(m.(state := Numeric), MARKER, true)
    else Turn(m.(previous := b), [b], false)
  }

  /** Gives up on a pending construct: writes it out, and the byte goes to the normal state. */
  function Release(m: Machine, pending: bytes, previous: byte): Turn
  {
    Turn(m.(previous := previous, state := Normal), pending, true)
  }

  function TurnQuoted(m: Machine, b: byte): Turn
  {
    if m.escaped then Turn(m.(escaped := false), [], false)
    else if b == BACKSLASH then Turn(m.(escaped := true), [], false)
    else if b == m.quote then Turn(m.(state := QuotePending), [], false)
    else Turn(m, [], false)
  }

  function TurnDollarCandidate(m: Machine, b: byte): (t: Turn)
    requires m.state == DollarCandidate && m.Valid()
    ensures t.next.Valid()
    ensures t.again <==> t.next.state == Normal
  {
    if b == DOLLAR then
      var tag := m.dollarTag + [DOLLAR];
      assert tag[..|tag| - 1] == m.dollarTag;
      Turn(m.(dollarTag := tag, dollarMatch := 0, state := DollarBody), tag + MARKER, false)
    else if (if |m.dollarTag| == 1 then IdentifierStart(b) else IdentifierPart(b)) && |m.dollarTag| < MAX_DOLLAR_TAG_BYTES then
      Turn(m.(dollarTag := m.dollarTag + [b]), [], false)
    else
      Release(m.(dollarTag := []), m.dollarTag, m.dollarTag[|m.dollarTag| - 1])
  }

  function TurnDollarBody(m: Machine, b: byte): Turn
    requires m.state == DollarBody && m.Valid()
  {
    if b == m.dollarTag[m.dollarMatch] then
      if m.dollarMatch + 1 == |m.dollarTag| then
        Turn(m.(previous := DOLLAR, dollarMatch := 0, dollarTag := [], state := Normal), m.dollarTag, false)
      else
        Turn(m.(dollarMatch := m.dollarMatch + 1), [], false)
    else if b == DOLLAR then Turn(m.(dollarMatch := 1), [], false)
    else Turn(m.(dollarMatch := 0), [], false)
  }

  function TurnIdentifier(m: Machine, b: byte): (t: Turn)
    requires m.state == Identifier && m.Valid()
    ensures t.next.Valid()
    ensures t.again <==> t.next.state in {Normal, SensitiveSeparator}
  {
    if IdentifierPart(b) && |m.identifier| < MAX_IDENTIFIER_BYTES then
      Turn(m.(identifier := m.identifier + [b]), [], false)
    else
      var id := m.identifier;
      Turn(m.(sensitiveParts := if EqualFold(id, AUTHORIZATION) then 2 else 1,
              previous := id[|id| - 1],
              identifier := [],
              state := if SensitiveKey(id) then SensitiveSeparator else Normal), id, true)
  }

  function TurnSeparator(m: Machine, b: byte): Turn
  {
    if IsBlank(b) then Turn(m, [b], false)
    else if b == EQUALS || b == COLON then Turn(m.(state := SensitiveValueStart), [b], false)
    else if b == LOWER_B || b == UPPER_B then Turn(m.(state := SensitiveB), [], false)
    else Turn(m.(state := Normal), [], true)
  }

  function TurnValueStart(m: Machine, b: byte): Turn
  {
    if IsBlank(b) then Turn(m, [b], false)
    else if ValuePart(b) then Turn(m.(state := SensitiveValue), MARKER, false)
    else Turn(m.(state := Normal), [], true)
  }

  function TurnValue(m: Machine, b: byte): Turn
  {
    if ValuePart(b) then Turn(m, [], false)
    else if m.sensitiveParts > 1 && IsBlank(b) then
      Turn(m.(sensitiveParts := m.sensitiveParts - 1, state := SensitiveValueStart), [b], false)
    else Turn(m.(state := Normal), [], true)
  }

  /** The switch inside Write's loop. */
  function Step(m: Machine, b: byte): Turn
    requires m.Valid()
  {
    match m.state
    case Normal => TurnNormal(m, b)
    case Dash =>
      if b == DASH then Turn(m.(state := LineComment), LINE_COMMENT, false) else Release(m, [DASH], DASH)
    case Slash =>
      if b == STAR then Turn(m.(state := BlockComment), BLOCK_COMMENT, false) else Release(m, [SLASH], SLASH)
    case Quoted => TurnQuoted(m, b)
    case QuotePending =>
      if b == m.quote then Turn(m.(state := Quoted), [], false) else Release(m, [m.quote], m.quote)
    case LineComment =>
      if b == LF then Turn(m.(previous := LF, state := Normal), [LF], false) else Turn(m, [], false)
    case BlockComment =>
      if b == STAR then Turn(m.(state := BlockStar), [], false) else Turn(m, [], false)
    case BlockStar =>
      if b == SLASH then Turn(m.(previous := SLASH, state := Normal), [], false)
      else if b != STAR then Turn(m.(state := BlockComment), [], false)
      else Turn(m, [], false)
    case DollarCandidate => TurnDollarCandidate(m, b)
    case DollarBody => TurnDollarBody(m, b)
    case Numeric =>
      if NumberPart(b) then Turn(m, [], false) else Turn(m.(state := Normal), [], true)
    case Identifier => TurnIdentifier(m, b)
    case SensitiveSeparator => TurnSeparator(m, b)
    case SensitiveB =>
      if b == LOWER_Y || b == UPPER_Y then Turn(m.(state := SensitiveValueStart), [UPPER_B, UPPER_Y], false)
      else Release(m, [UPPER_B], UPPER_B)
    case SensitiveValueStart => TurnValueStart(m, b)
    case SensitiveValue => TurnValue(m, b)
  }

  /** How many more times a byte can be handed on from this state. */
  function Rank(s: State, b: byte): nat
  {
    match s
    case Normal => 1
    case Numeric => if NumberPart(b) then 0 else 2
    case Identifier => 3
    case _ => 2
  }

  /** Comments and quotes. */
  predicate TextState(s: State)
  {
    s in {Dash, Slash, Quoted, QuotePending, LineComment, BlockComment, BlockStar}
  }

  /** Numbers and sensitive assignments. */
  predicate WordState(s: State)
  {
    s in {Numeric, SensitiveSeparator, SensitiveB, SensitiveValueStart, SensitiveValue}
  }

  /** The turn leads to a machine in good order, and a byte that is handed on has fewer states left to visit. */
  predicate Progress(m: Machine, b: byte, t: Turn)
  {
    t.next.Valid() && (t.again ==> Rank(t.next.state, b) < Rank(m.state, b))
  }

  lemma TextProgress(m: Machine, b: byte)
    requires m.Valid() && TextState(m.state)
    ensures Progress(m, b, Step(m, b))
  {
  }

  lemma WordProgress(m: Machine, b: byte)
    requires m.Valid() && WordState(m.state)
    ensures Progress(m, b, Step(m, b))
  {
  }

  /** Handing a byte on always lowers its rank, so the loop over one byte ends for every state and byte. */
  lemma StepProgress(m: Machine, b: byte)
    requires m.Valid()
    ensures Step(m, b).next.Valid()
    ensures Step(m, b).again ==> Rank(Step(m, b).next.state, b) < Rank(m.state, b)
  {
    hide SensitiveKey, EqualFold;
    if TextState(m.state) {
      TextProgress(m, b);
    } else if WordState(m.state) {
      WordProgress(m, b);
    } else {
      assert m.state in {Normal, DollarCandidate, DollarBody, Identifier};
    }
  }

  datatype Result = Result(machine: Machine, out: bytes)

  /** Everything that happens to one input byte. */
  function Feed(m: Machine, b: byte): (r: Result)
    requires m.Valid()
    ensures r.machine.Valid()
    decreases Rank(m.state, b)
  {
    StepProgress(m, b);
    var t := Step(m, b);
    if t.again then
      var rest := Feed(t.next, b);
      Result(rest.machine, t.out + rest.out)
    else
      Result(t.next, t.out)
  }

  /** A whole input, byte by byte. */
  function Run(m: Machine, s: bytes): (r: Result)
    requires m.Valid()
    ensures r.machine.Valid()
    decreases |s|
  {
    if s == [] then Result(m, [])
    else
      var first := Feed(m, s[0]);
      var rest := Run(first.machine, s[1..]);
      Result(rest.machine, first.out + rest.out)
  }

  lemma RunNil(m: Machine)
    requires m.Valid()
    ensures Run(m, []) == Result(m, [])
  {
  }

  /** A byte that is consumed where it arrives. */
  lemma FeedOnce(m: Machine, b: byte)
    requires m.Valid() && !Step(m, b).again
    ensures Feed(m, b) == Result(Step(m, b).next, Step(m, b).out)
  {
    hide Step, Machine.Valid;
  }

  /** A byte that is handed on. */
  lemma FeedAgain(m: Machine, b: byte)
    requires m.Valid() && Step(m, b).again
    ensures Step(m, b).next.Valid()
    ensures var rest := Feed(Step(m, b).next, b);
      Feed(m, b) == Result(rest.machine, Step(m, b).out + rest.out)
  {
    hide Step, Machine.Valid;
    StepProgress(m, b);
  }

  /** A run splits after one turn of the loop, whether or not the byte was consumed. */
  lemma RunStep(m: Machine, s: bytes)
    requires m.Valid() && s != []
    ensures var t := Step(m, s[0]);
      t.next.Valid() &&
      var rest := Run(t.next, if t.again then s else s[1..]);
      Run(m, s) == Result(rest.machine, t.out + rest.out)
  {
    hide Step, Feed, Machine.Valid;
    StepProgress(m, s[0]);
    var t := Step(m, s[0]);
    if t.again {
      FeedAgain(m, s[0]);
      var first := Feed(t.next, s[0]);
      var rest := Run(first.machine, s[1..]);
      assert (t.out + first.out) + rest.out == t.out + (first.out + rest.out);
    } else {
      FeedOnce(m, s[0]);
    }
  }

  /** What Flush writes for a construct that never completed. */
  function Pending(m: Machine): bytes
  {
    match m.state
    case Dash => [DASH]
    case Slash => [SLASH]
    case QuotePending => [m.quote]
    case DollarCandidate => m.dollarTag
    case Identifier => m.identifier
    case SensitiveB => [UPPER_B]
    case _ => []
  }

  /** The machine Flush leaves behind; `quote`, `escaped`, `previous` and `sensitiveParts` survive. */
  function Flushed(m: Machine): Machine
  {
    m.(state := Normal, dollarTag := [], identifier := [], dollarMatch := 0)
  }

  /** One Write of the whole text followed by Flush, on a new redactor. */
  function Redact(s: bytes): bytes
  {
    var r := Run(START, s);
    r.out + Pending(r.machine)
  }
}
