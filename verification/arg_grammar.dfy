/** A declarative reading of the argument vector, independent of the scanner:
    the arguments are a run of flag/value pairs followed by the template
    token and ignored trailing tokens. Each path is the value of the LAST
    pair with that flag, and each variable the value of the last `-v:NAME`
    pair for its name. The lemmas prove the scanner computes exactly this. */
module ArgGrammar {
  import opened Base
  import opened Args

  /** A flag token together with the value token it consumes. */
  type Pair = (string, string)

  predicate AllFlags(ps: seq<Pair>)
  {
    forall j :: 0 <= j < |ps| ==> IsFlag(ps[j].0)
  }

  /** The tokens a run of pairs occupies on the command line. */
  function Flatten(ps: seq<Pair>): (toks: seq<string>)
    ensures |toks| == 2 * |ps|
  {
    if |ps| == 0 then [] else [ps[0].0, ps[0].1] + Flatten(ps[1..])
  }

  /** The value of the last pair whose flag is `flag`, if any. */
  function LastValueOf(ps: seq<Pair>, flag: string): (r: Option<string>)
    ensures r.None? <==> forall j :: 0 <= j < |ps| ==> ps[j].0 != flag
    ensures r.Some? ==> exists j :: 0 <= j < |ps| && ps[j] == (flag, r.value)
                                    && forall l :: j < l < |ps| ==> ps[l].0 != flag
    decreases |ps|
  {
    if |ps| == 0 then None
    else if ps[|ps| - 1].0 == flag then Some(ps[|ps| - 1].1)
    else LastValueOf(ps[..|ps| - 1], flag)
  }

  /** The `-v:` token that defines variable `name`. */
  function VarFlag(name: string): string
  {
    VarPrefix + name
  }

  lemma VarFlagRoundTrip(name: string, tok: string)
    ensures IsVarFlag(VarFlag(name)) && VarName(VarFlag(name)) == name
    ensures IsVarFlag(tok) ==> VarFlag(VarName(tok)) == tok
  {
    assert (VarPrefix + name)[..|VarPrefix|] == VarPrefix;
    assert (VarPrefix + name)[|VarPrefix|..] == name;
    if IsVarFlag(tok) {
      assert tok == tok[..|VarPrefix|] + tok[|VarPrefix|..];
    }
  }

  /** The names defined by some `-v:` pair. */
  function VarNames(ps: seq<Pair>): set<string>
  {
    set j | 0 <= j < |ps| && IsVarFlag(ps[j].0) :: VarName(ps[j].0)
  }

  /** Every defined name bound to the value of its last defining pair. */
  function VarsOf(ps: seq<Pair>): (vars: map<string, string>)
    ensures forall k :: k in vars <==> exists j :: 0 <= j < |ps| && ps[j].0 == VarFlag(k)
    ensures forall k :: k in vars ==> LastValueOf(ps, VarFlag(k)) == Some(vars[k])
  {
    map k | k in VarNames(ps) && LastValueOf(ps, VarFlag(k)).Some? :: LastValueOf(ps, VarFlag(k)).value
  }

  /** What the scanner state holds after reading a run of pairs from `acc`. */
  function Accumulated(acc: CmdOption, ps: seq<Pair>): CmdOption
  {
    CmdOption(acc.tplPath,
              OrElse(LastValueOf(ps, "-d"), acc.dataPath),
              OrElse(LastValueOf(ps, "-o"), acc.outPath),
              acc.vars + VarsOf(ps))
  }

  lemma {:induction false} LastValueOfCons(p: Pair, qs: seq<Pair>, flag: string)
    ensures LastValueOf([p] + qs, flag)
         == OrElse(LastValueOf(qs, flag), if p.0 == flag then Some(p.1) else None)
    decreases |qs|
  {
    var ps := [p] + qs;
    if |qs| == 0 {
      assert ps[..|ps| - 1] == [];
    } else if qs[|qs| - 1].0 != flag {
      assert ps[..|ps| - 1] == [p] + qs[..|qs| - 1];
      LastValueOfCons(p, qs[..|qs| - 1], flag);
    }
  }

  lemma VarsOfConsAt(p: Pair, qs: seq<Pair>, k: string)
    requires IsFlag(p.0)
    ensures var first: map<string, string> := if IsVarFlag(p.0) then map[VarName(p.0) := p.1] else map[];
            var ps, rhs := [p] + qs, first + VarsOf(qs);
            (k in VarsOf(ps) <==> k in rhs) && (k in rhs ==> VarsOf(ps)[k] == rhs[k])
  {
    var ps := [p] + qs;
    VarFlagRoundTrip(k, p.0);
    LastValueOfCons(p, qs, VarFlag(k));
    if exists j :: 0 <= j < |qs| && qs[j].0 == VarFlag(k) {
      var j :| 0 <= j < |qs| && qs[j].0 == VarFlag(k);
      assert ps[j + 1] == qs[j];
    }
    if exists j :: 0 <= j < |ps| && ps[j].0 == VarFlag(k) {
      var j :| 0 <= j < |ps| && ps[j].0 == VarFlag(k);
      if j > 0 {
        assert qs[j - 1] == ps[j];
      }
    }
  }

  lemma VarsOfCons(p: Pair, qs: seq<Pair>)
    requires IsFlag(p.0)
    ensures VarsOf([p] + qs)
         == (if IsVarFlag(p.0) then map[VarName(p.0) := p.1] else map[]) + VarsOf(qs)
  {
    forall k {
      VarsOfConsAt(p, qs, k);
    }
  }

  lemma UpdateThenUnion(vars: map<string, string>, key: string, value: string, later: map<string, string>)
    ensures vars[key := value] + later == vars + (map[key := value] + later)
  {
  }

  lemma VarsStep(vars: map<string, string>, p: Pair, qs: seq<Pair>)
    requires IsFlag(p.0)
    ensures (if IsVarFlag(p.0) then vars[VarName(p.0) := p.1] else vars) + VarsOf(qs)
         == vars + VarsOf([p] + qs)
  {
    VarsOfCons(p, qs);
    var later := VarsOf(qs);
    if IsVarFlag(p.0) {
      UpdateThenUnion(vars, VarName(p.0), p.1, later);
    } else {
      assert map[] + later == later;
    }
  }

  lemma AccumulatedCons(acc: CmdOption, ps: seq<Pair>)
    requires |ps| > 0 && IsFlag(ps[0].0)
    ensures Accumulated(Apply(acc, ps[0].0, ps[0].1), ps[1..]) == Accumulated(acc, ps)
  {
    var p, qs := ps[0], ps[1..];
    assert ps == [p] + qs;
    LastValueOfCons(p, qs, "-o");
    LastValueOfCons(p, qs, "-d");
    VarsStep(acc.vars, p, qs);
  }

  /** Reading a run of pairs is the same as starting from their accumulated effect. */
  lemma {:induction false} ScanOverPairs(ps: seq<Pair>, tail: seq<string>, acc: CmdOption)
    requires AllFlags(ps) && acc.tplPath == ""
    ensures Scan(Flatten(ps) + tail, acc) == Scan(tail, Accumulated(acc, ps))
    decreases |ps|
  {
    if |ps| == 0 {
      assert Flatten(ps) + tail == tail;
      assert Accumulated(acc, ps) == acc;
    } else {
      var toks := Flatten(ps) + tail;
      assert toks == [ps[0].0, ps[0].1] + (Flatten(ps[1..]) + tail);
      assert toks[2..] == Flatten(ps[1..]) + tail;
      ScanOverPairs(ps[1..], tail, Apply(acc, ps[0].0, ps[0].1));
      AccumulatedCons(acc, ps);
    }
  }

  lemma AccumulatedFromStart(ps: seq<Pair>)
    ensures Accumulated(NoOptions, ps)
         == CmdOption("", LastValueOf(ps, "-d"), LastValueOf(ps, "-o"), VarsOf(ps))
  {
    assert map[] + VarsOf(ps) == VarsOf(ps);
  }

  /** The longest run of flag/value pairs at the front of `toks`. */
  function LeadingPairs(toks: seq<string>): (ps: seq<Pair>)
    ensures AllFlags(ps)
    ensures 2 * |ps| <= |toks| && toks[..2 * |ps|] == Flatten(ps)
    ensures 2 * |ps| < |toks| && IsFlag(toks[2 * |ps|]) ==> 2 * |ps| + 1 == |toks|
    decreases |toks|
  {
    if |toks| >= 2 && IsFlag(toks[0]) then
      var ps := [(toks[0], toks[1])] + LeadingPairs(toks[2..]);
      assert toks[..2 * |ps|] == toks[..2] + toks[2..][..2 * (|ps| - 1)];
      assert ps[1..] == LeadingPairs(toks[2..]);
      ps
    else []
  }

  /** The whole scanner, stated against the declarative reading: after the
      leading pairs comes either nothing (usage failure), a flag with no
      value (missing value), or the template token, which must be non-empty. */
  lemma LoadArgsCharacterised(argv: seq<string>)
    ensures var toks := Arguments(argv);
            var ps := LeadingPairs(toks);
            var n := 2 * |ps|;
            LoadArgs(argv)
              == if n == |toks| then Err(Usage)
                 else if IsFlag(toks[n]) then Err(MissingValue(toks[n]))
                 else if toks[n] == "" then Err(Usage)
                 else Ok(CmdOption(toks[n], LastValueOf(ps, "-d"), LastValueOf(ps, "-o"), VarsOf(ps)))
  {
    var toks := Arguments(argv);
    var ps := LeadingPairs(toks);
    var n := 2 * |ps|;
    assert toks == Flatten(ps) + toks[n..];
    ScanOverPairs(ps, toks[n..], NoOptions);
    AccumulatedFromStart(ps);
  }

  /** The first token that is not a flag is the template path and stops the
      scan: the tokens after it have no effect on the result. */
  lemma FirstPositionalStops(name: string, ps: seq<Pair>, tpl: string, trailing: seq<string>)
    requires AllFlags(ps) && !IsFlag(tpl)
    ensures LoadArgs([name] + Flatten(ps) + [tpl] + trailing)
         == if tpl == "" then Err(Usage)
            else Ok(CmdOption(tpl, LastValueOf(ps, "-d"), LastValueOf(ps, "-o"), VarsOf(ps)))
  {
    var argv := [name] + Flatten(ps) + [tpl] + trailing;
    assert Arguments(argv) == Flatten(ps) + ([tpl] + trailing);
    ScanOverPairs(ps, [tpl] + trailing, NoOptions);
    AccumulatedFromStart(ps);
  }

  /** Flags alone, each with its value, name no template: usage failure. */
  lemma AllFlagsIsUsage(name: string, ps: seq<Pair>)
    requires AllFlags(ps)
    ensures LoadArgs([name] + Flatten(ps)) == Err(Usage)
  {
    assert Arguments([name] + Flatten(ps)) == Flatten(ps) + [];
    ScanOverPairs(ps, [], NoOptions);
  }

  /** A flag that is the last token has no value. */
  lemma DanglingFlagIsMissingValue(name: string, ps: seq<Pair>, flag: string)
    requires AllFlags(ps) && IsFlag(flag)
    ensures LoadArgs([name] + Flatten(ps) + [flag]) == Err(MissingValue(flag))
  {
    assert Arguments([name] + Flatten(ps) + [flag]) == Flatten(ps) + [flag];
    ScanOverPairs(ps, [flag], NoOptions);
  }

  /** The decomposition of a successful parse: the leading pairs and the
      tokens after the template. */
  lemma SuccessSplit(argv: seq<string>) returns (ps: seq<Pair>, trailing: seq<string>)
    requires LoadArgs(argv).Ok?
    ensures var c := LoadArgs(argv).value;
            && AllFlags(ps)
            && Arguments(argv) == Flatten(ps) + [c.tplPath] + trailing
            && c == CmdOption(c.tplPath, LastValueOf(ps, "-d"), LastValueOf(ps, "-o"), VarsOf(ps))
  {
    var c := LoadArgs(argv).value;
    var toks := Arguments(argv);
    ps := LeadingPairs(toks);
    var n := 2 * |ps|;
    assert toks == Flatten(ps) + toks[n..];
    ScanOverPairs(ps, toks[n..], NoOptions);
    AccumulatedFromStart(ps);
    var acc := CmdOption("", LastValueOf(ps, "-d"), LastValueOf(ps, "-o"), VarsOf(ps));
    assert Scan(toks[n..], acc) == Ok(c);
    assert n < |toks| && c == acc.(tplPath := toks[n]);
    trailing := toks[n + 1..];
    assert toks == toks[..n] + [toks[n]] + toks[n + 1..];
  }

  /** Every successful parse came from flags that each had a value token,
      followed by the template token; its fields are the last values given. */
  lemma SuccessShape(argv: seq<string>)
    requires LoadArgs(argv).Ok?
    ensures var c := LoadArgs(argv).value;
            exists ps: seq<Pair>, trailing: seq<string> ::
              && AllFlags(ps)
              && Arguments(argv) == Flatten(ps) + [c.tplPath] + trailing
              && c == CmdOption(c.tplPath, LastValueOf(ps, "-d"), LastValueOf(ps, "-o"), VarsOf(ps))
  {
    var ps, trailing := SuccessSplit(argv);
  }

  /** A later occurrence of a flag overwrites every earlier one: `-o`/`-d`
      set their path, and `-v:NAME` sets NAME, to the last value given. */
  lemma LaterFlagWins(name: string, ps: seq<Pair>, flag: string, value: string, tpl: string)
    requires AllFlags(ps) && IsFlag(flag) && !IsFlag(tpl) && tpl != ""
    ensures var r := LoadArgs([name] + Flatten(ps + [(flag, value)]) + [tpl]);
            && r.Ok?
            && (flag == "-o" ==> r.value.outPath == Some(value))
            && (flag == "-d" ==> r.value.dataPath == Some(value))
            && (IsVarFlag(flag) ==> VarName(flag) in r.value.vars && r.value.vars[VarName(flag)] == value)
  {
    var qs := ps + [(flag, value)];
    assert AllFlags(qs) by {
      forall j | 0 <= j < |qs| ensures IsFlag(qs[j].0) {
        if j < |ps| { assert qs[j] == ps[j]; }
      }
    }
    FirstPositionalStops(name, qs, tpl, []);
    assert [name] + Flatten(qs) + [tpl] + [] == [name] + Flatten(qs) + [tpl];
    if IsVarFlag(flag) {
      VarFlagRoundTrip(VarName(flag), flag);
      assert qs[|qs| - 1].0 == VarFlag(VarName(flag));
    }
  }
}
