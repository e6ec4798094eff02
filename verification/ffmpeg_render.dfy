/** The `Display` implementations of ffmpeg_binary.rs used in error
    messages: `CmdWithArgs` (a command line) and `ProcessErrorCode` (a
    subprocess exit code). Paths and OS strings are modelled as the strings
    their lossy conversion produces. */
module FFmpegRender {
  import opened Wrappers

  /** A command path with its arguments. */
  datatype CmdWithArgs = CmdWithArgs(cmdPath: string, args: seq<string>)

  /** The arguments separated by single spaces. */
  function Join(args: seq<string>): string
    decreases |args|
  {
    if |args| == 0 then ""
    else if |args| == 1 then args[0]
    else Join(args[..|args| - 1]) + " " + args[|args| - 1]
  }

  /** `CmdWithArgs::fmt` as written: the path, then every argument, with a
      space written before each argument except the first one, so nothing
      separates the path from the first argument. */
  method FormatCmdAsWritten(c: CmdWithArgs) returns (out: string)
    ensures out == c.cmdPath + Join(c.args)
  {
    out := c.cmdPath;
    var first := true;
    var i := 0;
    while i < |c.args|
      invariant 0 <= i <= |c.args|
      invariant first <==> i == 0
      invariant out == c.cmdPath + Join(c.args[..i])
    {
      if first {
        first := false;
      } else {
        out := out + " ";
      }
      out := out + c.args[i];
      assert c.args[..i + 1][..i] == c.args[..i];
      i := i + 1;
    }
    assert c.args[..i] == c.args;
  }

  /** The rendering of the as-written `fmt` as a function, for the lemmas. */
  function RenderAsWritten(c: CmdWithArgs): string {
    c.cmdPath + Join(c.args)
  }

  /** The as-written rendering glues the path to the first argument: the
      probe command reads `ffprobe-v error`, and two different commands
      render identically. */
  lemma RenderAsWrittenGlues()
    ensures RenderAsWritten(CmdWithArgs("ffprobe", ["-v", "error"])) == "ffprobe-v error"
    ensures RenderAsWritten(CmdWithArgs("ffprobe", ["-v"])) == RenderAsWritten(CmdWithArgs("ffprobe-v", []))
  {
    assert Join(["-v", "error"]) == "-v error" by {
      assert ["-v", "error"][..1] == ["-v"];
    }
  }

  /** The corrected rendering: the path, then a space and the argument for
      every argument. */
  function Render(c: CmdWithArgs): string {
    c.cmdPath + Prefixed(c.args)
  }

  function Prefixed(args: seq<string>): string
    decreases |args|
  {
    if |args| == 0 then "" else " " + args[0] + Prefixed(args[1..])
  }

  predicate NoSpace(s: string) {
    forall i :: 0 <= i < |s| ==> s[i] != ' '
  }

  /** Splitting at every space; consecutive spaces give empty pieces. */
  function SplitSpaces(s: string): (r: seq<string>)
    ensures |r| >= 1
    decreases |s|
  {
    if |s| == 0 then [""]
    else if s[0] == ' ' then [""] + SplitSpaces(s[1..])
    else
      var rest := SplitSpaces(s[1..]);
      [[s[0]] + rest[0]] + rest[1..]
  }

  lemma {:induction false} SplitWord(w: string, rest: string)
    requires NoSpace(w)
    ensures SplitSpaces(w + rest) == [w + SplitSpaces(rest)[0]] + SplitSpaces(rest)[1..]
    decreases |w|
  {
    if |w| == 0 {
      var r := SplitSpaces(rest);
      assert w + rest == rest;
      assert w + r[0] == r[0];
      assert [r[0]] + r[1..] == r;
    } else {
      assert (w + rest)[1..] == w[1..] + rest;
      assert (w + rest)[0] == w[0];
      SplitWord(w[1..], rest);
      assert [w[0]] + (w[1..] + SplitSpaces(rest)[0]) == w + SplitSpaces(rest)[0];
    }
  }

  lemma {:induction false} SplitPrefixed(args: seq<string>)
    requires forall i :: 0 <= i < |args| ==> NoSpace(args[i])
    ensures SplitSpaces(Prefixed(args)) == [""] + args
    decreases |args|
  {
    if |args| > 0 {
      var tail := Prefixed(args[1..]);
      SplitPrefixed(args[1..]);
      assert Prefixed(args) == " " + (args[0] + tail);
      assert SplitSpaces(Prefixed(args)) == [""] + SplitSpaces(args[0] + tail);
      SplitWord(args[0], tail);
      assert args[0] + "" == args[0];
      assert [args[0]] + args[1..] == args;
    }
  }

  /** The corrected rendering can be read back: when neither the path nor
      any argument contains a space, splitting at spaces gives the path
      followed by the arguments. */
  lemma RenderSplits(c: CmdWithArgs)
    requires NoSpace(c.cmdPath)
    requires forall i :: 0 <= i < |c.args| ==> NoSpace(c.args[i])
    ensures SplitSpaces(Render(c)) == [c.cmdPath] + c.args
  {
    SplitPrefixed(c.args);
    SplitWord(c.cmdPath, Prefixed(c.args));
    assert c.cmdPath + "" == c.cmdPath;
  }

  /** With at least one argument, the corrected rendering is the as-written
      one with the missing space put back. */
  lemma {:induction false} RenderIsSpacedJoin(c: CmdWithArgs)
    requires |c.args| > 0
    ensures Render(c) == c.cmdPath + " " + Join(c.args)
    decreases |c.args|
  {
    if |c.args| == 1 {
      assert c.args[1..] == [];
      assert Prefixed(c.args) == " " + c.args[0] + Prefixed([]);
    } else {
      var init := CmdWithArgs(c.cmdPath, c.args[..|c.args| - 1]);
      RenderIsSpacedJoin(init);
      var last := c.args[|c.args| - 1];
      PrefixedSnoc(init.args, last);
      assert init.args + [last] == c.args;
      assert Join(c.args) == Join(init.args) + " " + last;
      assert Render(c) == c.cmdPath + Prefixed(init.args) + " " + last;
    }
  }

  lemma {:induction false} PrefixedSnoc(args: seq<string>, a: string)
    ensures Prefixed(args + [a]) == Prefixed(args) + " " + a
    decreases |args|
  {
    if |args| == 0 {
      assert args + [a] == [a];
    } else {
      assert (args + [a])[1..] == args[1..] + [a];
      PrefixedSnoc(args[1..], a);
    }
  }

  // ------------------------------------------------------------------
  // ProcessErrorCode

  /** An `i32` exit code. */
  type I32 = x: int | -0x8000_0000 <= x < 0x8000_0000

  /** The decimal digits of `n`, most significant first, without leading
      zeros. */
  function NatDigits(n: nat): (s: string)
    ensures |s| >= 1 && (n > 0 ==> s[0] != '0')
    ensures forall i :: 0 <= i < |s| ==> '0' <= s[i] <= '9'
    decreases n
  {
    if n < 10 then [DigitChar(n)] else NatDigits(n / 10) + [DigitChar(n % 10)]
  }

  function DigitChar(d: nat): (c: char)
    requires d < 10
    ensures '0' <= c <= '9' && c as nat - '0' as nat == d
  {
    ('0' as nat + d) as char
  }

  function DigitValue(c: char): nat
    requires '0' <= c <= '9'
  {
    c as nat - '0' as nat
  }

  /** Reading a string of decimal digits. */
  function ParseDigits(s: string): nat
    requires forall i :: 0 <= i < |s| ==> '0' <= s[i] <= '9'
    decreases |s|
  {
    if |s| == 0 then 0 else ParseDigits(s[..|s| - 1]) * 10 + DigitValue(s[|s| - 1])
  }

  /** `to_string` of an integer: a minus sign for negatives, then the digits. */
  function Decimal(n: int): string {
    if n < 0 then "-" + NatDigits(-n) else NatDigits(n)
  }

  function ParseDecimal(s: string): int
    requires |s| >= 1
    requires forall i :: (if s[0] == '-' then 1 else 0) <= i < |s| ==> '0' <= s[i] <= '9'
  {
    if s[0] == '-' then -(ParseDigits(s[1..]) as int) else ParseDigits(s)
  }

  lemma {:induction false} DigitsRoundTrip(n: nat)
    ensures ParseDigits(NatDigits(n)) == n
    decreases n
  {
    if n >= 10 {
      DigitsRoundTrip(n / 10);
      ParseSnoc(NatDigits(n / 10), n % 10);
    } else {
      ParseSnoc([], n);
      assert NatDigits(n) == [] + [DigitChar(n)];
    }
  }

  /** Appending a digit multiplies by ten and adds it. */
  lemma ParseSnoc(s: string, d: nat)
    requires d < 10
    requires forall i :: 0 <= i < |s| ==> '0' <= s[i] <= '9'
    ensures forall i :: 0 <= i < |s + [DigitChar(d)]| ==> '0' <= (s + [DigitChar(d)])[i] <= '9'
    ensures ParseDigits(s + [DigitChar(d)]) == ParseDigits(s) * 10 + d
  {
    var t := s + [DigitChar(d)];
    assert t[..|t| - 1] == s;
  }

  /** The decimal rendering reads back as the number it renders. */
  lemma DecimalRoundTrip(n: int)
    ensures |Decimal(n)| >= 1
    ensures forall i :: (if Decimal(n)[0] == '-' then 1 else 0) <= i < |Decimal(n)| ==> '0' <= Decimal(n)[i] <= '9'
    ensures ParseDecimal(Decimal(n)) == n
  {
    if n < 0 {
      DigitsRoundTrip(-n);
      assert Decimal(n)[1..] == NatDigits(-n);
    } else {
      DigitsRoundTrip(n);
    }
  }

  /** `ProcessErrorCode::fmt`: the exit code in decimal, or `interrupted?`
      when the process was ended by a signal and has no code. */
  function RenderExitCode(code: Option<I32>): string {
    match code
    case Some(n) => Decimal(n)
    case None => "interrupted?"
  }

  /** The rendering loses nothing: different exit codes render differently,
      and no code renders as the text for a missing one. */
  lemma RenderExitCodeInjective(a: Option<I32>, b: Option<I32>)
    requires RenderExitCode(a) == RenderExitCode(b)
    ensures a == b
  {
    if a.Some? {
      DecimalRoundTrip(a.value);
    }
    if b.Some? {
      DecimalRoundTrip(b.value);
    }
  }
}
