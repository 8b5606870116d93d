/** The text of the fake executable.

    The mock is a three-command shell script: it copies the staged standard
    output file to standard output, the staged standard error file to
    standard error, and exits with the configured code, which is an unsigned
    byte printed in decimal.
 */
module ScriptText {
  import opened PathList

  /** An unsigned 8-bit integer, the type of the configured exit code. */
  newtype uint8 = x: int | 0 <= x < 256

  const Shebang: string := "#!/bin/sh -e"
  const Newline: char := '\n'

  predicate IsDigits(s: string)
  {
    forall i :: 0 <= i < |s| ==> '0' <= s[i] <= '9'
  }

  function DigitChar(d: int): char
    requires 0 <= d < 10
  {
    ('0' as int + d) as char
  }

  /** Decimal formatting of a natural number, as `{}` prints an integer. */
  function Decimal(n: nat): (r: string)
    ensures |r| >= 1 && IsDigits(r)
    ensures r[0] == '0' <==> n == 0
  {
    if n < 10 then [DigitChar(n)] else Decimal(n / 10) + [DigitChar(n % 10)]
  }

  /** The number a string of decimal digits denotes. */
  function DecimalValue(s: string): nat
    requires IsDigits(s)
  {
    if s == [] then 0 else 10 * DecimalValue(s[..|s| - 1]) + (s[|s| - 1] as int - '0' as int)
  }

  /** Reading the printed number back gives the number. */
  lemma {:induction false} DecimalRoundTrip(n: nat)
    ensures DecimalValue(Decimal(n)) == n
  {
    if n >= 10 {
      DecimalRoundTrip(n / 10);
      var r := Decimal(n);
      assert r[..|r| - 1] == Decimal(n / 10);
    }
  }

  /** An exit code prints as one to three digits. */
  lemma ExitCodeWidth(rc: uint8)
    ensures 1 <= |Decimal(rc as nat)| <= 3
  {
    var n := rc as nat;
    if n >= 10 {
      assert |Decimal(n)| == |Decimal(n / 10)| + 1;
      if n / 10 >= 10 {
        assert |Decimal(n / 10)| == |Decimal(n / 100)| + 1;
      }
    }
  }

  /** The script body written to the fake executable. Whatever the file
      names hold, its first line is the interpreter line and its last line
      is the `exit` with the configured code. */
  function Body(stdoutFile: string, stderrFile: string, rc: uint8): (r: string)
    ensures var lines := Split(r, Newline);
      lines[0] == Shebang && lines[|lines| - 1] == "exit " + Decimal(rc as nat)
  {
    var digits := Decimal(rc as nat);
    TemplateLines(stdoutFile, stderrFile, digits);
    assert Newline !in "exit " + digits;
    FirstLine(Shebang, "cat " + stdoutFile, "cat " + stderrFile + " >&2", "exit " + digits);
    TemplateTail(stdoutFile, stderrFile, digits);
    LastLine("#!/bin/sh -e\ncat " + stdoutFile + "\ncat " + stderrFile + " >&2", "exit " + digits);
    "#!/bin/sh -e\ncat " + stdoutFile + "\ncat " + stderrFile + " >&2\nexit " + digits
  }

  /** The script template is four lines joined by line breaks. */
  lemma TemplateLines(stdoutFile: string, stderrFile: string, digits: string)
    ensures "#!/bin/sh -e\ncat " + stdoutFile + "\ncat " + stderrFile + " >&2\nexit " + digits ==
      Shebang + [Newline] + (("cat " + stdoutFile) + [Newline] +
        (("cat " + stderrFile + " >&2") + [Newline] + ("exit " + digits)))
  {
    assert "#!/bin/sh -e\ncat " == Shebang + [Newline] + "cat ";
    assert "\ncat " == [Newline] + "cat ";
    assert " >&2\nexit " == " >&2" + [Newline] + "exit ";
  }

  /** The script template ends with a line break and the `exit` line. */
  lemma TemplateTail(stdoutFile: string, stderrFile: string, digits: string)
    ensures "#!/bin/sh -e\ncat " + stdoutFile + "\ncat " + stderrFile + " >&2\nexit " + digits ==
      ("#!/bin/sh -e\ncat " + stdoutFile + "\ncat " + stderrFile + " >&2") + [Newline] + ("exit " + digits)
  {
    assert " >&2\nexit " == " >&2" + [Newline] + "exit ";
  }

  /** Four lines joined by line breaks read back with the first line first
      when that one holds no line break. */
  lemma FirstLine(l0: string, l1: string, l2: string, l3: string)
    requires Newline !in l0
    ensures Split(l0 + [Newline] + (l1 + [Newline] + (l2 + [Newline] + l3)), Newline)[0] == l0
  {
    SplitCons(l0, Newline, l1 + [Newline] + (l2 + [Newline] + l3));
  }

  /** Text ending in a line break and a line without one reads back with
      that line last. */
  lemma LastLine(front: string, last: string)
    requires Newline !in last
    ensures var lines := Split(front + [Newline] + last, Newline); lines[|lines| - 1] == last
  {
    SplitSingle(last, Newline);
    SplitAppend(front, Newline, last);
  }

  /** What a script body says: which file goes to which stream, and the exit code. */
  datatype Fields = Fields(stdoutFile: string, stderrFile: string, rc: uint8)

  /** Reads a script body back, line by line. */
  function Parse(text: string): Option<Fields>
  {
    var lines := Split(text, Newline);
    if |lines| == 4 && lines[0] == Shebang
      && |lines[1]| >= 4 && lines[1][..4] == "cat "
      && |lines[2]| >= 8 && lines[2][..4] == "cat " && lines[2][|lines[2]| - 4..] == " >&2"
      && |lines[3]| >= 6 && lines[3][..5] == "exit " && IsDigits(lines[3][5..])
      && DecimalValue(lines[3][5..]) < 256
    then Some(Fields(lines[1][4..], lines[2][4..|lines[2]| - 4], DecimalValue(lines[3][5..]) as uint8))
    else None
  }

  /** When neither file name holds a line break, the body is exactly four
      lines: the interpreter line, the two `cat` commands and the `exit`. */
  lemma BodyLines(stdoutFile: string, stderrFile: string, rc: uint8)
    requires Newline !in stdoutFile && Newline !in stderrFile
    ensures Split(Body(stdoutFile, stderrFile, rc), Newline) ==
      [Shebang, "cat " + stdoutFile, "cat " + stderrFile + " >&2", "exit " + Decimal(rc as nat)]
  {
    var l0, l1, l2, l3 := Shebang, "cat " + stdoutFile, "cat " + stderrFile + " >&2", "exit " + Decimal(rc as nat);
    TemplateLines(stdoutFile, stderrFile, Decimal(rc as nat));
    assert Newline !in l3;
    SplitSingle(l3, Newline);
    SplitCons(l2, Newline, l3);
    SplitCons(l1, Newline, l2 + [Newline] + l3);
    SplitCons(l0, Newline, l1 + [Newline] + (l2 + [Newline] + l3));
  }

  /** The body has three line breaks more than the two file names together. */
  lemma BodyLineCount(stdoutFile: string, stderrFile: string, rc: uint8)
    ensures |Split(Body(stdoutFile, stderrFile, rc), Newline)| ==
      4 + Count(stdoutFile, Newline) + Count(stderrFile, Newline)
  {
    var digits := Decimal(rc as nat);
    var l1, l2 := "cat " + stdoutFile, "cat " + stderrFile + " >&2";
    TemplateLines(stdoutFile, stderrFile, Decimal(rc as nat));
    assert Newline !in "exit " + digits;
    FourLineCount(Shebang, l1, l2, "exit " + digits);
    CountAfterFree("cat ", stdoutFile);
    CountAfterFree("cat ", stderrFile);
    CountAfterFree(" >&2", "cat " + stderrFile);
  }

  /** Only the two middle lines can hold line breaks of their own. */
  lemma FourLineCount(l0: string, l1: string, l2: string, l3: string)
    requires Newline !in l0 && Newline !in l3
    ensures |Split(l0 + [Newline] + (l1 + [Newline] + (l2 + [Newline] + l3)), Newline)| ==
      Count(l1, Newline) + Count(l2, Newline) + 4
  {
    CountZero(l0, Newline);
    CountZero(l3, Newline);
    CountAround(l2, l3);
    CountAround(l1, l2 + [Newline] + l3);
    CountAround(l0, l1 + [Newline] + (l2 + [Newline] + l3));
    SplitCount(l0 + [Newline] + (l1 + [Newline] + (l2 + [Newline] + l3)), Newline);
  }

  /** Text without line breaks adds none to the count, before or after. */
  lemma CountAfterFree(p: string, x: string)
    requires Newline !in p
    ensures Count(p + x, Newline) == Count(x, Newline)
    ensures Count(x + p, Newline) == Count(x, Newline)
  {
    CountZero(p, Newline);
    CountAppend(p, x, Newline);
    CountAppend(x, p, Newline);
  }

  lemma CountAround(a: string, b: string)
    ensures Count(a + [Newline] + b, Newline) == Count(a, Newline) + 1 + Count(b, Newline)
  {
    CountAppend(a + [Newline], b, Newline);
    CountAppend(a, [Newline], Newline);
  }

  /** The body reads back as the two file names and the exit code exactly
      when neither file name holds a line break; otherwise it does not parse. */
  lemma ParseBody(stdoutFile: string, stderrFile: string, rc: uint8)
    ensures Parse(Body(stdoutFile, stderrFile, rc)) ==
      if Newline !in stdoutFile && Newline !in stderrFile
      then Some(Fields(stdoutFile, stderrFile, rc))
      else None
  {
    BodyLineCount(stdoutFile, stderrFile, rc);
    if Newline !in stdoutFile && Newline !in stderrFile {
      BodyLines(stdoutFile, stderrFile, rc);
      var digits := Decimal(rc as nat);
      DecimalRoundTrip(rc as nat);
      var l1, l2, l3 := "cat " + stdoutFile, "cat " + stderrFile + " >&2", "exit " + digits;
      assert l1[4..] == stdoutFile;
      assert l2[4..|l2| - 4] == stderrFile;
      assert l3[5..] == digits;
    } else {
      CountZero(stdoutFile, Newline);
      CountZero(stderrFile, Newline);
    }
  }
}
