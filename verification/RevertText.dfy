/** Decoding the printed form of a contract error back into its reason. */
module RevertText {
  import opened HookCore

  /** A decoded contract revert. */
  datatype ContractRevert = Rejected(reason: RejectionReason) | DoubleInitialization | Unknown(code: U32)

  function RevertFromCode(code: U32): ContractRevert {
    var reason := FromCode(code);
    if reason.Some? then Rejected(reason.value)
    else if code == 12 then DoubleInitialization
    else Unknown(code)
  }

  /** The revert an error of the contract is reported as. */
  function RevertOf(error: ContractError): ContractRevert {
    match error
    case Rejection(reason) => Rejected(reason)
    case AlreadyInitialized => DoubleInitialization
  }

  /******* Text *******/

  predicate OccursAt(line: string, pattern: string, j: nat) {
    j + |pattern| <= |line| && line[j..j + |pattern|] == pattern
  }

  /** The first place a pattern occurs in a line. */
  function Find(line: string, pattern: string): (at: Option<nat>)
    ensures at.Some? ==> OccursAt(line, pattern, at.value) && forall j: nat :: j < at.value ==> !OccursAt(line, pattern, j)
    ensures at.None? ==> forall j: nat :: !OccursAt(line, pattern, j)
  {
    if OccursAt(line, pattern, 0) then Some(0)
    else if line == [] then None
    else
      var rest := Find(line[1..], pattern);
      assert forall j: nat :: j > 0 ==> (OccursAt(line, pattern, j) <==> OccursAt(line[1..], pattern, j - 1));
      if rest.None? then None else Some(rest.value + 1)
  }

  /** A carriage return before the end of a line belongs to the line ending. */
  function StripReturn(line: string): string {
    if line != [] && line[|line| - 1] == '\r' then line[..|line| - 1] else line
  }

  /** The lines of a text; a final newline ends the last line, and a carriage
      return that no newline follows stays. */
  function Lines(text: string): seq<string>
    decreases |text|
  {
    if text == [] then []
    else
      var newline := Find(text, "\n");
      if newline.None? then [text]
      else [StripReturn(text[..newline.value])] + Lines(text[newline.value + 1..])
  }

  predicate IsDigit(c: char) {
    '0' <= c <= '9'
  }

  function DigitValue(c: char): (d: nat)
    requires IsDigit(c)
    ensures d < 10
  {
    c as int - '0' as int
  }

  function TakeDigits(text: string): (digits: string)
    ensures digits <= text
    ensures forall c :: c in digits ==> IsDigit(c)
    ensures |digits| < |text| ==> !IsDigit(text[|digits|])
  {
    if text == [] || !IsDigit(text[0]) then [] else [text[0]] + TakeDigits(text[1..])
  }

  function Numeral(digits: string): nat
    requires forall c :: c in digits ==> IsDigit(c)
  {
    if digits == [] then 0
    else
      assert digits[|digits| - 1] in digits;
      10 * Numeral(digits[..|digits| - 1]) + DigitValue(digits[|digits| - 1])
  }

  /** Parsing fails when the number does not fit. */
  function ParseU32(digits: string): Option<U32>
    requires forall c :: c in digits ==> IsDigit(c)
  {
    if Numeral(digits) <= U32_MAX then Some(Numeral(digits)) else None
  }

  const MARKER := "Error(Contract, #"

  /** The digits right after the first marker of a line, if there are any. */
  function ScanLine(line: string): (digits: Option<string>)
    ensures digits.Some? ==> digits.value != [] && forall c :: c in digits.value ==> IsDigit(c)
  {
    var at := Find(line, MARKER);
    if at.None? then None
    else
      var digits := TakeDigits(line[at.value + |MARKER|..]);
      if digits == [] then None else Some(digits)
  }

  /** The digits of the first line that has a marker with digits. */
  function FirstDigits(lines: seq<string>): (digits: Option<string>)
    ensures digits.Some? ==> digits.value != [] && forall c :: c in digits.value ==> IsDigit(c)
  {
    if lines == [] then None
    else if ScanLine(lines[0]).Some? then ScanLine(lines[0])
    else FirstDigits(lines[1..])
  }

  /** What a text decodes to. */
  function Decoded(text: string): Option<ContractRevert> {
    var digits := FirstDigits(Lines(text));
    if digits.None? then None
    else
      var code := ParseU32(digits.value);
      if code.None? then None else Some(RevertFromCode(code.value))
  }

  /** The decoder: line by line, skipping lines without a marker or without digits after it. */
  method DecodeContractError(combined: string) returns (revert: Option<ContractRevert>)
    ensures revert == Decoded(combined)
  {
    var lines := Lines(combined);
    var i := 0;
    while i < |lines|
      invariant 0 <= i <= |lines|
      invariant FirstDigits(lines) == FirstDigits(lines[i..])
    {
      var line := lines[i];
      assert lines[i..][1..] == lines[i + 1..];
      i := i + 1;
      var at := Find(line, MARKER);
      if at.None? {
        continue;
      }
      var digits := TakeDigits(line[at.value + |MARKER|..]);
      if digits == [] {
        continue;
      }
      var code := ParseU32(digits);
      return if code.None? then None else Some(RevertFromCode(code.value));
    }
    return None;
  }

  /******* Printing and parsing numbers *******/

  function Digit(d: nat): char
    requires d < 10
  {
    '0' + d as char
  }

  function Decimal(n: nat): (digits: string)
    ensures digits != [] && forall c :: c in digits ==> IsDigit(c)
  {
    if n < 10 then [Digit(n)] else Decimal(n / 10) + [Digit(n % 10)]
  }

  lemma {:induction false} DecimalRoundTrip(n: nat)
    ensures Numeral(Decimal(n)) == n
  {
    if n < 10 {
      assert Decimal(n)[..0] == [];
    } else {
      DecimalRoundTrip(n / 10);
      assert Decimal(n)[..|Decimal(n)| - 1] == Decimal(n / 10);
    }
  }

  lemma {:induction false} TakeDigitsStops(digits: string, after: string)
    requires forall c :: c in digits ==> IsDigit(c)
    requires after == [] || !IsDigit(after[0])
    ensures TakeDigits(digits + after) == digits
  {
    if digits == [] {
      assert digits + after == after;
    } else {
      assert (digits + after)[1..] == digits[1..] + after;
      TakeDigitsStops(digits[1..], after);
    }
  }

  /******* The first marked line decides *******/

  lemma {:induction false} FirstDigitsAt(lines: seq<string>, k: nat)
    requires k < |lines| && ScanLine(lines[k]).Some?
    requires forall i :: 0 <= i < k ==> ScanLine(lines[i]).None?
    ensures FirstDigits(lines) == ScanLine(lines[k])
  {
    if k > 0 {
      FirstDigitsAt(lines[1..], k - 1);
    }
  }

  lemma {:induction false} NoDigitsAnywhere(lines: seq<string>)
    ensures FirstDigits(lines).None? <==> forall i :: 0 <= i < |lines| ==> ScanLine(lines[i]).None?
  {
    if lines != [] {
      NoDigitsAnywhere(lines[1..]);
      assert forall i :: 0 < i < |lines| ==> lines[i] == lines[1..][i - 1];
    }
  }

  lemma AfterMarker(before: string, marker: string, digits: string, after: string)
    ensures (before + marker + digits + after)[|before| + |marker|..] == digits + after
  {
  }

  lemma PrintedCodeScans(before: string, code: U32, after: string)
    requires Find(before + MARKER + Decimal(code) + after, MARKER) == Some(|before|)
    requires after == [] || !IsDigit(after[0])
    ensures ScanLine(before + MARKER + Decimal(code) + after) == Some(Decimal(code))
  {
    AfterMarker(before, MARKER, Decimal(code), after);
    TakeDigitsStops(Decimal(code), after);
  }

  /** A text without a marked line decodes to nothing. */
  lemma UnmarkedTextDecodesToNothing(text: string)
    requires forall i :: 0 <= i < |Lines(text)| ==> ScanLine(Lines(text)[i]).None?
    ensures Decoded(text) == None
  {
    NoDigitsAnywhere(Lines(text));
  }

  /** A text decodes to a code whenever its first marked line prints the code
      after its first marker, whatever stands around it. */
  lemma PrintedCodeDecodes(text: string, k: nat, before: string, code: U32, after: string)
    requires k < |Lines(text)| && (forall i :: 0 <= i < k ==> ScanLine(Lines(text)[i]).None?)
    requires Lines(text)[k] == before + MARKER + Decimal(code) + after
    requires Find(Lines(text)[k], MARKER) == Some(|before|)
    requires after == [] || !IsDigit(after[0])
    ensures Decoded(text) == Some(RevertFromCode(code))
  {
    PrintedCodeScans(before, code, after);
    FirstDigitsAt(Lines(text), k);
    DecimalRoundTrip(code);
  }

  lemma ErrorCodeDecodes(error: ContractError)
    ensures RevertFromCode(ErrorCode(error)) == RevertOf(error)
  {
    FromCodeIsInverse(ErrorCode(error));
  }

  /** Every error of the contract survives printing and decoding. */
  lemma ErrorRoundTrip(text: string, k: nat, before: string, error: ContractError, after: string)
    requires k < |Lines(text)| && (forall i :: 0 <= i < k ==> ScanLine(Lines(text)[i]).None?)
    requires Lines(text)[k] == before + MARKER + Decimal(ErrorCode(error)) + after
    requires Find(Lines(text)[k], MARKER) == Some(|before|)
    requires after == [] || !IsDigit(after[0])
    ensures Decoded(text) == Some(RevertOf(error))
  {
    PrintedCodeDecodes(text, k, before, ErrorCode(error), after);
    ErrorCodeDecodes(error);
  }

  /******* The published numbers *******/

  /** What each number stands for; every other number is unknown. */
  ghost predicate StandsFor(code: U32, revert: ContractRevert) {
    && (code == 2 ==> revert == Rejected(UnboundToken))
    && (code == 3 ==> revert == Rejected(PolicyDenied))
    && (code == 4 ==> revert == Rejected(RejectionReason.AccountFrozen))
    && (code == 5 ==> revert == Rejected(SpenderNotAuthorized))
    && (code == 8 ==> revert == Rejected(SacAuthorizationFailed))
    && (code == 9 ==> revert == Rejected(InvalidConfiguration))
    && (code == 10 ==> revert == Rejected(PolicyUnavailable))
    && (code == 12 ==> revert == DoubleInitialization)
    && (code !in {2, 3, 4, 5, 8, 9, 10, 12} ==> revert == Unknown(code))
  }

  lemma CodesStandFor(code: U32)
    ensures StandsFor(code, RevertFromCode(code))
  {
    FromCodeIsInverse(code);
    if FromCode(code).Some? {
      assert Code(FromCode(code).value) == code;
    } else {
      assert forall reason :: Code(reason) != code;
      assert Code(UnboundToken) == 2 && Code(PolicyDenied) == 3 && Code(RejectionReason.AccountFrozen) == 4
        && Code(SpenderNotAuthorized) == 5 && Code(SacAuthorizationFailed) == 8
        && Code(InvalidConfiguration) == 9 && Code(PolicyUnavailable) == 10;
    }
  }

  /** A first marked line that prints a number decodes to what the number stands for. */
  lemma NumberDecodes(text: string, k: nat, before: string, code: U32, after: string)
    requires k < |Lines(text)| && (forall i :: 0 <= i < k ==> ScanLine(Lines(text)[i]).None?)
    requires Lines(text)[k] == before + "Error(Contract, #" + Decimal(code) + after
    requires Find(Lines(text)[k], "Error(Contract, #") == Some(|before|)
    requires after == [] || !IsDigit(after[0])
    ensures Decoded(text).Some? && StandsFor(code, Decoded(text).value)
  {
    PrintedCodeDecodes(text, k, before, code, after);
    CodesStandFor(code);
  }

  /** A text without a newline is one line. */
  lemma OneLine(text: string)
    requires text != [] && (forall c :: c in text ==> c != '\n')
    ensures Lines(text) == [text]
  {
    NoNewlineFound(text);
  }

  lemma MarkerAtStart(text: string, after: string)
    requires text == MARKER + after
    ensures Find(text, MARKER) == Some(0)
  {
    assert text[0..|MARKER|] == MARKER;
    FindIsFirst(text, MARKER, 0);
  }

  /** The bare printed error of every number. */
  lemma BareErrorDecodes(code: U32)
    ensures
      var text := "Error(Contract, #" + Decimal(code) + ")";
      Decoded(text).Some? && StandsFor(code, Decoded(text).value)
  {
    var text := "Error(Contract, #" + Decimal(code) + ")";
    assert [] + MARKER + Decimal(code) + ")" == text;
    OneLine(text);
    MarkerAtStart(text, Decimal(code) + ")");
    NumberDecodes(text, 0, [], code, ")");
  }

  lemma PrintedErrorDecodes(code: U32, digits: string, text: string)
    requires digits == Decimal(code) && text == "Error(Contract, #" + digits + ")"
    ensures Decoded(text).Some? && StandsFor(code, Decoded(text).value)
  {
    BareErrorDecodes(code);
  }

  /** The printed errors of the contract, letter by letter. */
  lemma PrintedErrorsDecode(text: string)
    ensures text == "Error(Contract, #2)" ==> Decoded(text) == Some(Rejected(UnboundToken))
    ensures text == "Error(Contract, #3)" ==> Decoded(text) == Some(Rejected(PolicyDenied))
    ensures text == "Error(Contract, #4)" ==> Decoded(text) == Some(Rejected(RejectionReason.AccountFrozen))
    ensures text == "Error(Contract, #5)" ==> Decoded(text) == Some(Rejected(SpenderNotAuthorized))
    ensures text == "Error(Contract, #8)" ==> Decoded(text) == Some(Rejected(SacAuthorizationFailed))
    ensures text == "Error(Contract, #9)" ==> Decoded(text) == Some(Rejected(InvalidConfiguration))
    ensures text == "Error(Contract, #10)" ==> Decoded(text) == Some(Rejected(PolicyUnavailable))
    ensures text == "Error(Contract, #12)" ==> Decoded(text) == Some(DoubleInitialization)
  {
    DecimalsInDigits();
    if text == "Error(Contract, #2)" {
      PrintedErrorDecodes(2, "2", text);
    } else if text == "Error(Contract, #3)" {
      PrintedErrorDecodes(3, "3", text);
    } else if text == "Error(Contract, #4)" {
      PrintedErrorDecodes(4, "4", text);
    } else if text == "Error(Contract, #5)" {
      PrintedErrorDecodes(5, "5", text);
    } else if text == "Error(Contract, #8)" {
      PrintedErrorDecodes(8, "8", text);
    } else if text == "Error(Contract, #9)" {
      PrintedErrorDecodes(9, "9", text);
    } else if text == "Error(Contract, #10)" {
      PrintedErrorDecodes(10, "10", text);
    } else if text == "Error(Contract, #12)" {
      PrintedErrorDecodes(12, "12", text);
    }
  }

  lemma DecimalsInDigits()
    ensures Decimal(2) == "2" && Decimal(3) == "3" && Decimal(4) == "4" && Decimal(5) == "5"
    ensures Decimal(8) == "8" && Decimal(9) == "9" && Decimal(10) == "10" && Decimal(12) == "12"
  {
    assert Decimal(10) == Decimal(1) + [Digit(0)];
    assert Decimal(12) == Decimal(1) + [Digit(2)];
  }

  /** A number beyond u32 on the first marked line decodes to nothing, whatever later lines say. */
  lemma OverlongCodeDecodesToNothing(text: string, k: nat)
    requires k < |Lines(text)| && (forall i :: 0 <= i < k ==> ScanLine(Lines(text)[i]).None?)
    requires ScanLine(Lines(text)[k]).Some? && Numeral(ScanLine(Lines(text)[k]).value) > 4_294_967_295
    ensures Decoded(text) == None
  {
    FirstDigitsAt(Lines(text), k);
  }

  /******* Standard output and standard error as one document *******/

  /** The first occurrence is the one no occurrence comes before. */
  lemma FindIsFirst(line: string, pattern: string, at: nat)
    requires OccursAt(line, pattern, at)
    requires forall j: nat :: j < at ==> !OccursAt(line, pattern, j)
    ensures Find(line, pattern) == Some(at)
  {
  }

  /** A return at the end of a line takes no part in the scan. */
  lemma {:induction false} FindIgnoresReturn(line: string)
    ensures Find(line + "\r", MARKER) == Find(line, MARKER)
  {
    var longer := line + "\r";
    forall j: nat
      ensures OccursAt(longer, MARKER, j) <==> OccursAt(line, MARKER, j)
    {
      if j + |MARKER| == |longer| {
        assert longer[j..j + |MARKER|][|MARKER| - 1] == '\r' != MARKER[|MARKER| - 1];
      } else if j + |MARKER| <= |line| {
        assert longer[j..j + |MARKER|] == line[j..j + |MARKER|];
      }
    }
    if Find(line, MARKER).Some? {
      FindIsFirst(longer, MARKER, Find(line, MARKER).value);
    }
  }

  lemma {:induction false} DigitsIgnoreReturn(text: string)
    ensures TakeDigits(text + "\r") == TakeDigits(text)
  {
    if text != [] {
      assert (text + "\r")[1..] == text[1..] + "\r";
      DigitsIgnoreReturn(text[1..]);
    }
  }

  lemma ScanIgnoresReturn(line: string)
    ensures ScanLine(StripReturn(line)) == ScanLine(line)
  {
    var stripped := StripReturn(line);
    if stripped != line {
      assert line == stripped + "\r";
      FindIgnoresReturn(stripped);
      var at := Find(stripped, MARKER);
      if at.Some? {
        assert line[at.value + |MARKER|..] == stripped[at.value + |MARKER|..] + "\r";
        DigitsIgnoreReturn(stripped[at.value + |MARKER|..]);
      }
    }
  }

  /** Where the first newline of a joined text is. */
  lemma FirstNewline(a: string, b: string)
    ensures Find(a + "\n" + b, "\n") == if Find(a, "\n").Some? then Find(a, "\n") else Some(|a|)
  {
    var joined := a + "\n" + b;
    forall j: nat | j < |a|
      ensures OccursAt(joined, "\n", j) <==> OccursAt(a, "\n", j)
    {
      assert joined[j..j + 1] == a[j..j + 1];
    }
    assert joined[|a|..|a| + 1] == "\n";
    FindIsFirst(joined, "\n", if Find(a, "\n").Some? then Find(a, "\n").value else |a|);
  }

  lemma NewlineInside(text: string, i: nat)
    requires Find(text, "\n") == Some(i)
    ensures i < |text| && text[i] == '\n' && text[i] in text
  {
    assert OccursAt(text, "\n", i);
    assert text[i..i + 1][0] == text[i];
  }

  /** A text with a newline is its first line and the lines after it. */
  lemma LinesAtNewline(text: string, newline: Option<nat>)
    requires Find(text, "\n") == newline && newline.Some? && newline.value < |text|
    ensures Lines(text) == [StripReturn(text[..newline.value])] + Lines(text[newline.value + 1..])
  {
  }

  lemma JoinedTail(a: string, b: string, i: nat)
    requires i < |a|
    ensures (a + "\n" + b)[..i] == a[..i] && (a + "\n" + b)[i + 1..] == a[i + 1..] + "\n" + b
  {
  }

  lemma JoinedSplit(a: string, b: string)
    ensures (a + "\n" + b)[..|a|] == a && (a + "\n" + b)[|a| + 1..] == b
  {
  }

  /** The lines of a joined text whose first part has a newline. */
  lemma JoinedLines(a: string, b: string, i: nat)
    requires i < |a| && Find(a, "\n") == Some(i)
    ensures Lines(a) == [StripReturn(a[..i])] + Lines(a[i + 1..])
    ensures Lines(a + "\n" + b) == [StripReturn(a[..i])] + Lines(a[i + 1..] + "\n" + b)
  {
    FirstNewline(a, b);
    LinesAtNewline(a, Some(i));
    LinesAtNewline(a + "\n" + b, Some(i));
    JoinedTail(a, b, i);
  }

  /** The lines of a joined text whose first part is one line. */
  lemma JoinedLine(a: string, b: string)
    requires Find(a, "\n").None?
    ensures Lines(a) == if a == [] then [] else [a]
    ensures Lines(a + "\n" + b) == [StripReturn(a)] + Lines(b)
  {
    FirstNewline(a, b);
    LinesAtNewline(a + "\n" + b, Some(|a|));
    JoinedSplit(a, b);
  }

  /** Lines with the ending each has in a text: a newline, or a return and a newline. */
  function Joined(lines: seq<string>, crlf: seq<bool>): string
    requires |lines| == |crlf|
  {
    if lines == [] then []
    else lines[0] + (if crlf[0] then "\r\n" else "\n") + Joined(lines[1..], crlf[1..])
  }

  /** A text that does not hold a newline and does not end in a return. */
  ghost predicate Plain(line: string) {
    (forall c :: c in line ==> c != '\n') && (line == [] || line[|line| - 1] != '\r')
  }

  lemma PlainLineSplits(line: string, crlf: bool, rest: string)
    requires Plain(line)
    ensures Lines(line + (if crlf then "\r\n" else "\n") + rest) == [line] + Lines(rest)
  {
    var ended := line + (if crlf then "\r" else []);
    assert line + (if crlf then "\r\n" else "\n") + rest == ended + "\n" + rest;
    NoNewlineFound(ended);
    JoinedLine(ended, rest);
    assert StripReturn(ended) == line;
  }

  lemma JoinedUnfold(lines: seq<string>, crlf: seq<bool>, rest: string)
    requires |lines| == |crlf| > 0 && rest == Joined(lines[1..], crlf[1..])
    ensures Joined(lines, crlf) == lines[0] + (if crlf[0] then "\r\n" else "\n") + rest
  {
  }

  /** Splitting gives back the lines a text was joined from, whichever line endings were used. */
  lemma {:induction false} LinesOfJoined(lines: seq<string>, crlf: seq<bool>, text: string)
    requires |lines| == |crlf| && text == Joined(lines, crlf)
    requires forall line :: line in lines ==> Plain(line)
    ensures Lines(text) == lines
    decreases lines
  {
    if lines != [] {
      var rest := Joined(lines[1..], crlf[1..]);
      JoinedUnfold(lines, crlf, rest);
      PlainLineSplits(lines[0], crlf[0], rest);
      LinesOfJoined(lines[1..], crlf[1..], rest);
    }
  }

  lemma NoNewlineFound(line: string)
    requires forall c :: c in line ==> c != '\n'
    ensures Find(line, "\n").None?
  {
    var newline := Find(line, "\n");
    if newline.Some? {
      NewlineInside(line, newline.value);
    }
  }

  lemma FirstDigitsCons(line: string, lines: seq<string>)
    ensures FirstDigits([line] + lines) == if ScanLine(line).Some? then ScanLine(line) else FirstDigits(lines)
  {
    assert ([line] + lines)[1..] == lines;
  }

  lemma {:induction false} JoinedDigits(a: string, b: string)
    ensures FirstDigits(Lines(a + "\n" + b)) ==
      if FirstDigits(Lines(a)).Some? then FirstDigits(Lines(a)) else FirstDigits(Lines(b))
    decreases |a|
  {
    var newline := Find(a, "\n");
    if newline.Some? {
      NewlineInside(a, newline.value);
      JoinedLines(a, b, newline.value);
      var line, rest := StripReturn(a[..newline.value]), a[newline.value + 1..];
      JoinedDigits(rest, b);
      FirstDigitsCons(line, Lines(rest));
      FirstDigitsCons(line, Lines(rest + "\n" + b));
    } else {
      JoinedLine(a, b);
      ScanIgnoresReturn(a);
      FirstDigitsCons(StripReturn(a), Lines(b));
      FirstDigitsCons(a, []);
      assert [a] + [] == [a];
      assert ScanLine([]).None?;
    }
  }

  /** Decoding a document of standard output and standard error is decoding the
      output whenever it has a marked line, and the error stream otherwise. */
  lemma CombinedDecoding(stdout: string, stderr: string)
    ensures Decoded(stdout + "\n" + stderr) ==
      if FirstDigits(Lines(stdout)).Some? then Decoded(stdout) else Decoded(stderr)
  {
    JoinedDigits(stdout, stderr);
  }
}
