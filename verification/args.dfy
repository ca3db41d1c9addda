/** The command-line scanner: one left-to-right pass over the arguments in
    which `-o`, `-d` and `-v:NAME` each take the following token as their
    value and the first other token is the template path. */
module Args {
  import opened Base

  /** The parsed invocation. */
  datatype CmdOption = CmdOption(
    tplPath: string,
    dataPath: Option<string>,
    outPath: Option<string>,
    vars: map<string, string>)

  /** Scanner state before the first token: no template, no paths, no variables. */
  const NoOptions: CmdOption := CmdOption("", None, None, map[])

  const VarPrefix: string := "-v:"

  predicate IsVarFlag(tok: string)
  {
    |tok| >= |VarPrefix| && tok[..|VarPrefix|] == VarPrefix
  }

  /** Tokens that consume the following token as their value. */
  predicate IsFlag(tok: string)
  {
    tok == "-o" || tok == "-d" || IsVarFlag(tok)
  }

  /** The variable a `-v:NAME` token defines: the token without its first three characters. */
  function VarName(tok: string): string
    requires IsVarFlag(tok)
  {
    tok[|VarPrefix|..]
  }

  /** One scanner step for a flag and the value token it consumed. */
  function Apply(c: CmdOption, flag: string, value: string): CmdOption
    requires IsFlag(flag)
  {
    if flag == "-o" then c.(outPath := Some(value))
    else if flag == "-d" then c.(dataPath := Some(value))
    else c.(vars := c.vars[VarName(flag) := value])
  }

  /** The check after the loop: an empty template path is a usage failure. */
  function Finish(c: CmdOption): Result<CmdOption>
  {
    if c.tplPath == "" then Err(Usage) else Ok(c)
  }

  /** The scanner as a state machine over the tokens not yet read. `acc` holds
      what the flags read so far have set; the template path stays empty
      until the scan stops at a positional token. */
  function Scan(rest: seq<string>, acc: CmdOption): (r: Result<CmdOption>)
    requires acc.tplPath == ""
    ensures r.Ok? ==> r.value.tplPath != "" && !IsFlag(r.value.tplPath) && r.value.tplPath in rest
    ensures r.Ok? ==> acc.vars.Keys <= r.value.vars.Keys
    ensures r.Err? ==> r.error.Usage? || (r.error.MissingValue? && IsFlag(r.error.flag) && |rest| > 0 && rest[|rest| - 1] == r.error.flag)
    decreases |rest|
  {
    if |rest| == 0 then Finish(acc)
    else if IsFlag(rest[0]) then
      if |rest| == 1 then Err(MissingValue(rest[0]))
      else Scan(rest[2..], Apply(acc, rest[0], rest[1]))
    else Finish(acc.(tplPath := rest[0]))
  }

  /** The arguments after the program name. */
  function Arguments(argv: seq<string>): seq<string>
  {
    if |argv| == 0 then [] else argv[1..]
  }

  /** Parse the whole argument vector; index 0 is the program name. */
  function LoadArgs(argv: seq<string>): (r: Result<CmdOption>)
    ensures r.Ok? ==> r.value.tplPath != "" && r.value.tplPath in Arguments(argv)
    ensures |argv| <= 1 ==> r == Err(Usage)
  {
    Scan(Arguments(argv), NoOptions)
  }

  /** The program name is never interpreted: any name gives the same result. */
  lemma ProgramNameIgnored(name: string, other: string, args: seq<string>)
    ensures LoadArgs([name] + args) == LoadArgs([other] + args)
  {
    assert Arguments([name] + args) == args == Arguments([other] + args);
  }

  /** The scanner loop with an explicit cursor, as the source writes it: the
      cursor starts after the program name and advances by one for a
      positional token and by two for a flag and its value. */
  method ScanArgv(argv: seq<string>) returns (r: Result<CmdOption>)
    ensures r == LoadArgs(argv)
  {
    var i := 1;
    var acc := NoOptions;
    while i < |argv|
      invariant 1 <= i && (i <= |argv| || |argv| == 0)
      invariant acc.tplPath == ""
      invariant Scan(if i <= |argv| then argv[i..] else [], acc) == LoadArgs(argv)
      decreases |argv| - i
    {
      ghost var rest := argv[i..];
      var arg := argv[i];
      i := i + 1;
      if arg == "-o" {
        if i >= |argv| {
          return Err(MissingValue(arg));
        }
        assert rest[2..] == argv[i + 1..];
        acc := acc.(outPath := Some(argv[i]));
        i := i + 1;
      } else if arg == "-d" {
        if i >= |argv| {
          return Err(MissingValue(arg));
        }
        assert rest[2..] == argv[i + 1..];
        acc := acc.(dataPath := Some(argv[i]));
        i := i + 1;
      } else if IsVarFlag(arg) {
        if i >= |argv| {
          return Err(MissingValue(arg));
        }
        assert rest[2..] == argv[i + 1..];
        acc := acc.(vars := acc.vars[VarName(arg) := argv[i]]);
        i := i + 1;
      } else {
        acc := acc.(tplPath := arg);
        break;
      }
    }
    if acc.tplPath == "" {
      r := Err(Usage);
    } else {
      r := Ok(acc);
    }
  }
}
