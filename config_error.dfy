/**
 * The configuration parser's error value (config/error.go): a line number
 * and a message, rendered as "<line>: <message>".
 */
module ConfigError {
  import opened Wrappers
  import opened GoStrings

  datatype ParseError = ParseError(line: int, msg: string) {

    /** The text of the error: the line in decimal, a colon and a space, then the message. */
    function Error(): (s: string)
      ensures |s| > 2 + |msg| && s[|s| - |msg|..] == msg
    {
      IntToString(line) + ": " + msg
    }
  }

  /** `newError`: an error that keeps the line and the message as given. */
  function NewError(line: int, msg: string): (e: ParseError)
    ensures e.line == line && e.msg == msg
  {
    ParseError(line, msg)
  }

  /** Cutting the text of an error at its first ": " gives back the line number and the message. */
  lemma ErrorRoundTrip(e: ParseError)
    requires e.line >= 0
    ensures Cut(e.Error(), ": ").Some?
    ensures var (number, message) := Cut(e.Error(), ": ").value;
            number == NatToString(e.line) && AllDigits(number) && number != [] &&
            DecimalValue(number) == e.line && message == e.msg
  {
    var digits := NatToString(e.line);
    assert ':' !in digits by {
      forall i | 0 <= i < |digits| ensures digits[i] != ':' {
        assert IsDigit(digits[i]);
      }
    }
    CutAfter(digits, ": ", e.msg);
    DecimalValueOfNatToString(e.line);
  }

  /** A negative line number is printed with a leading minus sign. */
  lemma ErrorNegativeLine(e: ParseError)
    requires e.line < 0
    ensures e.Error()[0] == '-'
    ensures Cut(e.Error()[1..], ": ").Some?
    ensures var (number, message) := Cut(e.Error()[1..], ": ").value;
            AllDigits(number) && DecimalValue(number) == -e.line && message == e.msg
  {
    var digits := NatToString(-e.line);
    assert e.Error()[1..] == digits + ": " + e.msg;
    assert ':' !in digits by {
      forall i | 0 <= i < |digits| ensures digits[i] != ':' {
        assert IsDigit(digits[i]);
      }
    }
    CutAfter(digits, ": ", e.msg);
    DecimalValueOfNatToString(-e.line);
  }
}
