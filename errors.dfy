/**
 * The closed error type of the encoder (src/error.rs): a syntax error that
 * carries a code and a location, or a failure of the output sink.
 */
module Errors {
  import opened Wrappers
  import opened Text

  datatype ErrorCode = InvalidKey | UnrepresentableValue

  /**
   * A failure reported by the output sink. Its texts come from the platform's
   * I/O library and are not computed here: `description` is what the inner
   * error's `description()` returns and `message` what its `Display` prints.
   */
  datatype IoFailure = IoFailure(description: string, message: string)

  datatype Error =
    | SyntaxError(code: ErrorCode, offset: nat, line: nat, column: nat)
    | IoError(io: IoFailure)

  datatype Result<+T> = Ok(value: T) | Err(error: Error)

  /** The message of each code. */
  function Message(c: ErrorCode): string {
    match c
    case InvalidKey => "Invalid key"
    case UnrepresentableValue => "Value cannot be represented"
  }

  /**
   * `Debug` of a code: its message formatted through `str`'s own `Debug`,
   * so between double quotes.
   */
  function DebugCode(c: ErrorCode): (r: string)
    ensures |r| >= 2 && r[0] == '"' && r[|r| - 1] == '"'
    ensures r[1..|r| - 1] == Message(c)
  {
    var r := "\"" + Message(c) + "\"";
    assert r[1..|r| - 1] == Message(c);
    r
  }

  /** `Display` of an error. The offset of a syntax error is not shown. */
  function Display(e: Error): (r: string)
    ensures e.SyntaxError? ==> DebugCode(e.code) <= r && |r| > |DebugCode(e.code)|
    ensures e.IoError? ==> r == e.io.message
  {
    match e
    case SyntaxError(code, _, line, column) => DebugCode(code) + Location(line, column)
    case IoError(io) => io.message
  }

  /** The text after a syntax error's code. */
  function Location(line: nat, column: nat): string {
    " at line " + DecimalDigits(line) + " column " + DecimalDigits(column)
  }

  /** `description` from the standard error trait. */
  function Description(e: Error): (r: string)
    ensures e.SyntaxError? ==> r == "syntax error"
    ensures e.IoError? ==> r == e.io.description
  {
    match e
    case SyntaxError(_, _, _, _) => "syntax error"
    case IoError(io) => io.description
  }

  /** `cause` from the standard error trait: only a sink failure has one. */
  function Cause(e: Error): (r: Option<IoFailure>)
    ensures r.Some? <==> e.IoError?
    ensures r.Some? ==> r.value == e.io
  {
    match e
    case SyntaxError(_, _, _, _) => None
    case IoError(io) => Some(io)
  }

  /** Conversion of a sink failure into an encoder error. */
  function FromIo(io: IoFailure): (e: Error)
    ensures e.IoError? && e.io == io
  {
    IoError(io)
  }

  lemma FromIoKeepsInner(io: IoFailure)
    ensures Cause(FromIo(io)) == Some(io)
    ensures Display(FromIo(io)) == io.message
    ensures Description(FromIo(io)) == io.description
  {
  }

  /** Codes are told apart by their `Debug` text. */
  lemma DebugCodeInjective(a: ErrorCode, b: ErrorCode)
    ensures DebugCode(a) == DebugCode(b) <==> a == b
  {
    if a != b {
      assert DebugCode(a)[1] != DebugCode(b)[1];
    }
  }

  /** Two digit strings followed by the same text that starts with a space split the same way. */
  lemma {:induction false} SplitAfterDigits(x1: string, y1: string, x2: string, y2: string, sep: string)
    requires AllDigits(x1) && AllDigits(x2)
    requires |sep| >= 1 && sep[0] == ' '
    requires x1 + sep + y1 == x2 + sep + y2
    ensures x1 == x2 && y1 == y2
  {
    var s := x1 + sep + y1;
    if |x1| < |x2| {
      CharAfter(x1, sep, y1);
      assert false;
    } else if |x2| < |x1| {
      CharAfter(x2, sep, y2);
      assert false;
    }
    assert x1 == s[..|x1|] == x2;
    assert y1 == s[|x1| + |sep|..] == y2;
  }

  lemma CharAfter(x: string, sep: string, y: string)
    requires |sep| >= 1
    ensures (x + sep + y)[|x|] == sep[0]
  {
  }

  lemma CancelPrefix(p: string, t1: string, t2: string)
    requires p + t1 == p + t2
    ensures t1 == t2
  {
    assert t1 == (p + t1)[|p|..];
  }

  /** The location text determines the line and the column. */
  lemma LocationInjective(l1: nat, k1: nat, l2: nat, k2: nat)
    requires Location(l1, k1) == Location(l2, k2)
    ensures l1 == l2 && k1 == k2
  {
    var t1 := DecimalDigits(l1) + " column " + DecimalDigits(k1);
    var t2 := DecimalDigits(l2) + " column " + DecimalDigits(k2);
    assert Location(l1, k1) == " at line " + t1;
    assert Location(l2, k2) == " at line " + t2;
    CancelPrefix(" at line ", t1, t2);
    SplitAfterDigits(DecimalDigits(l1), DecimalDigits(k1), DecimalDigits(l2), DecimalDigits(k2), " column ");
    DecimalInjective(l1, l2);
    DecimalInjective(k1, k2);
  }

  /** The second character of a syntax error's text is the first letter of its code's message. */
  lemma CodeLetter(c: ErrorCode, t: string)
    ensures (DebugCode(c) + t)[1] == Message(c)[0]
  {
    assert (DebugCode(c) + t)[1] == DebugCode(c)[1] == DebugCode(c)[1..|DebugCode(c)| - 1][0];
  }

  /**
   * The text of a syntax error determines its code, line and column, and
   * nothing else: two syntax errors display alike exactly when those three agree.
   */
  lemma DisplaySyntaxError(c1: ErrorCode, o1: nat, l1: nat, k1: nat, c2: ErrorCode, o2: nat, l2: nat, k2: nat)
    ensures Display(SyntaxError(c1, o1, l1, k1)) == Display(SyntaxError(c2, o2, l2, k2))
        <==> c1 == c2 && l1 == l2 && k1 == k2
  {
    if Display(SyntaxError(c1, o1, l1, k1)) == Display(SyntaxError(c2, o2, l2, k2)) {
      CodeLetter(c1, Location(l1, k1));
      CodeLetter(c2, Location(l2, k2));
      assert c1 == c2;
      CancelPrefix(DebugCode(c1), Location(l1, k1), Location(l2, k2));
      LocationInjective(l1, k1, l2, k2);
    }
  }
}
