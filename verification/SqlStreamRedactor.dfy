/** The redactor object: the machine's registers as fields, and the byte loop that updates them. */
module SqlStreamRedactor {
  import opened Bytes
  import opened SqlRedactor

  class Redactor {
    var state: State
    var quote: byte
    var escaped: bool
    var previous: byte
    var dollarTag: bytes
    var dollarMatch: nat
    var identifier: bytes
    var sensitiveParts: int

    function Registers(): Machine
      reads this
    {
      Machine(state, quote, escaped, previous, dollarTag, dollarMatch, identifier, sensitiveParts)
    }

    constructor ()
      ensures Registers() == START
    {
      state, quote, escaped, previous := Normal, 0, false, 0;
      dollarTag, dollarMatch, identifier, sensitiveParts := [], 0, [], 0;
    }

    /** The branch of the switch for the state that starts every construct. */
    method ConsumeNormal(value: byte) returns (out: bytes, reprocess: bool)
      requires state == Normal
      modifies this
      ensures TurnNormal(old(Registers()), value) == Turn(Registers(), out, reprocess)
    {
      out, reprocess := [], false;
      if value == SQUOTE || value == DQUOTE {
        quote := value;
        escaped := false;
        out := [value] + MARKER;
        state := Quoted;
      } else if value == DASH {
        state := Dash;
      } else if value == SLASH {
        state := Slash;
      } else if value == HASH {
        out := HASH_COMMENT;
        state := LineComment;
      } else if IdentifierStart(value) {
        identifier := [value];
        state := Identifier;
      } else if value == DOLLAR {
        dollarTag := [DOLLAR];
        state := DollarCandidate;
      } else if StartsNumber(previous, value) {
        out := MARKER;
        state := Numeric;
        reprocess := true;
      } else {
        out := [value];
        previous := value;
      }
    }

    /** The branches for dollar quoting. */
    method ConsumeDollar(value: byte) returns (out: bytes, reprocess: bool)
      requires state == DollarCandidate || state == DollarBody
      requires Registers().Valid()
      modifies this
      ensures Step(old(Registers()), value) == Turn(Registers(), out, reprocess)
    {
      out, reprocess := [], false;
      if state == DollarCandidate {
        if value == DOLLAR {
          dollarTag := dollarTag + [DOLLAR];
          out := dollarTag + MARKER;
          dollarMatch := 0;
          state := DollarBody;
        } else if (|dollarTag| == 1 && IdentifierStart(value)) || (|dollarTag| > 1 && IdentifierPart(value)) {
          if |dollarTag| >= MAX_DOLLAR_TAG_BYTES {
            out := dollarTag;
            previous := dollarTag[|dollarTag| - 1];
            dollarTag := [];
            state := Normal;
            reprocess := true;
          } else {
            dollarTag := dollarTag + [value];
          }
        } else {
          out := dollarTag;
          previous := dollarTag[|dollarTag| - 1];
          dollarTag := [];
          state := Normal;
          reprocess := true;
        }
      } else if value == dollarTag[dollarMatch] {
        dollarMatch := dollarMatch + 1;
        if dollarMatch == |dollarTag| {
          out := dollarTag;
          previous := DOLLAR;
          dollarMatch := 0;
          dollarTag := [];
          state := Normal;
        }
      } else if value == DOLLAR {
        dollarMatch := 1;
      } else {
        dollarMatch := 0;
      }
    }

    /** The branches for comments and quotes. */
    method ConsumeText(value: byte) returns (out: bytes, reprocess: bool)
      requires state in {Dash, Slash, Quoted, QuotePending, LineComment, BlockComment, BlockStar}
      requires Registers().Valid()
      modifies this
      ensures Step(old(Registers()), value) == Turn(Registers(), out, reprocess)
    {
      out, reprocess := [], false;
      match state {
        case Dash =>
          if value == DASH {
            out := LINE_COMMENT;
            state := LineComment;
          } else {
            out := [DASH];
            previous := DASH;
            state := Normal;
            reprocess := true;
          }
        case Slash =>
          if value == STAR {
            out := BLOCK_COMMENT;
            state := BlockComment;
          } else {
            out := [SLASH];
            previous := SLASH;
            state := Normal;
            reprocess := true;
          }
        case Quoted =>
          if escaped {
            escaped := false;
          } else if value == BACKSLASH {
            escaped := true;
          } else if value == quote {
            state := QuotePending;
          }
        case QuotePending =>
          if value == quote {
            state := Quoted;
          } else {
            out := [quote];
            previous := quote;
            state := Normal;
            reprocess := true;
          }
        case LineComment =>
          if value == LF {
            out := [LF];
            previous := LF;
            state := Normal;
          }
        case BlockComment =>
          if value == STAR {
            state := BlockStar;
          }
        case BlockStar =>
          if value == SLASH {
            previous := SLASH;
            state := Normal;
          } else if value != STAR {
            state := BlockComment;
          }
        case _ => assert false;
      }
    }

    /** The branches for numbers, identifiers and sensitive assignments. */
    method ConsumeWord(value: byte) returns (out: bytes, reprocess: bool)
      requires state in {Numeric, Identifier, SensitiveSeparator, SensitiveB, SensitiveValueStart, SensitiveValue}
      requires Registers().Valid()
      modifies this
      ensures Step(old(Registers()), value) == Turn(Registers(), out, reprocess)
    {
      out, reprocess := [], false;
      match state {
        case Numeric =>
          if !NumberPart(value) {
            state := Normal;
            reprocess := true;
          }
        case Identifier =>
          if IdentifierPart(value) && |identifier| < MAX_IDENTIFIER_BYTES {
            identifier := identifier + [value];
          } else {
            var sensitive := SensitiveKey(identifier);
            sensitiveParts := if EqualFold(identifier, AUTHORIZATION) then 2 else 1;
            out := identifier;
            previous := identifier[|identifier| - 1];
            identifier := [];
            state := if sensitive then SensitiveSeparator else Normal;
            reprocess := true;
          }
        case SensitiveSeparator =>
          if IsBlank(value) {
            out := [value];
          } else if value == EQUALS || value == COLON {
            out := [value];
            state := SensitiveValueStart;
          } else if value == LOWER_B || value == UPPER_B {
            state := SensitiveB;
          } else {
            state := Normal;
            reprocess := true;
          }
        case SensitiveB =>
          if value == LOWER_Y || value == UPPER_Y {
            out := [UPPER_B, UPPER_Y];
            state := SensitiveValueStart;
          } else {
            out := [UPPER_B];
            previous := UPPER_B;
            state := Normal;
            reprocess := true;
          }
        case SensitiveValueStart =>
          if IsBlank(value) {
            out := [value];
          } else if ValuePart(value) {
            out := MARKER;
            state := SensitiveValue;
          } else {
            state := Normal;
            reprocess := true;
          }
        case SensitiveValue =>
          if !ValuePart(value) {
            if sensitiveParts > 1 && IsBlank(value) {
              sensitiveParts := sensitiveParts - 1;
              out := [value];
              state := SensitiveValueStart;
            } else {
              state := Normal;
              reprocess := true;
            }
          }
        case _ => assert false;
      }
    }

    /** The switch on the current state. */
    method Consume(value: byte) returns (out: bytes, reprocess: bool)
      requires Registers().Valid()
      modifies this
      ensures Step(old(Registers()), value) == Turn(Registers(), out, reprocess)
    {
      if state == Normal {
        out, reprocess := ConsumeNormal(value);
      } else if state == DollarCandidate || state == DollarBody {
        out, reprocess := ConsumeDollar(value);
      } else if state in {Dash, Slash, Quoted, QuotePending, LineComment, BlockComment, BlockStar} {
        out, reprocess := ConsumeText(value);
      } else {
        out, reprocess := ConsumeWord(value);
      }
    }

    /**
     Redacts one chunk. The result is what is handed to the output callback (which
     the source skips when there is nothing to hand over).
     */
    method Write(data: bytes) returns (output: bytes)
      requires Registers().Valid()
      modifies this
      ensures Registers().Valid()
      ensures Run(old(Registers()), data) == Result(Registers(), output)
    {
      hide Step, Feed, Run, Machine.Valid;
      output := [];
      var index := 0;
      ghost var total := Run(Registers(), data);
      assert data[0..] == data;
      while index < |data|
        invariant 0 <= index <= |data|
        invariant Registers().Valid()
        invariant total == Result(Run(Registers(), data[index..]).machine, output + Run(Registers(), data[index..]).out)
        decreases |data| - index, if index < |data| then Rank(state, data[index]) else 0
      {
        var value := data[index];
        ghost var before, rest := Registers(), data[index..];
        assert rest[0] == value && rest[1..] == data[index + 1..];
        StepProgress(before, value);
        var piece, reprocess := Consume(value);
        RunStep(before, rest);
        ghost var written := output;
        output := output + piece;
        if !reprocess {
          index := index + 1;
        }
        ghost var tail := if reprocess then rest else rest[1..];
        assert written + (piece + Run(Registers(), tail).out) == output + Run(Registers(), tail).out;
      }
      RunNil(Registers());
      assert data[index..] == [] && output + [] == output;
    }

    /** Writes what is pending and resets the machine; the callback is skipped when there is nothing. */
    method Flush() returns (output: bytes)
      modifies this
      ensures output == Pending(old(Registers()))
      ensures Registers() == Flushed(old(Registers()))
      ensures Registers().Valid()
    {
      output := [];
      match state {
        case Dash => output := [DASH];
        case Slash => output := [SLASH];
        case QuotePending => output := [quote];
        case DollarCandidate => output := dollarTag;
        case Identifier => output := identifier;
        case SensitiveB => output := [UPPER_B];
        case _ =>
      }
      state := Normal;
      dollarTag := [];
      identifier := [];
      dollarMatch := 0;
    }
  }
}
