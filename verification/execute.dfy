/** The invocation up to the hand-off to the template engine: scan the
    arguments, compile the template, load the data document, build the
    context. The template engine and the data loader are parameters. */
module Execute {
  import opened Base
  import opened Args
  import opened Context

  /** What the renderer receives: the parsed invocation and the context. */
  datatype Prepared = Prepared(options: CmdOption, context: Ctx)

  const TemplateParseFailure: string := "failed to parse template file:"

  /** The data loader reads and parses a file; every failure it reports is
      a message (it cannot produce a usage or data-shape error). */
  ghost predicate ReportsMessages(load: string -> Result<Value>)
  {
    forall path :: load(path).Err? ==> load(path).error.Failed?
  }

  /** Load the data document when `-d` was given; none otherwise. */
  function LoadData(dataPath: Option<string>, load: string -> Result<Value>): (r: Result<Option<Value>>)
    requires ReportsMessages(load)
    ensures dataPath.None? ==> r == Ok(None)
    ensures dataPath.Some? && load(dataPath.value).Ok? ==> r == Ok(Some(load(dataPath.value).value))
    ensures dataPath.Some? && load(dataPath.value).Err? ==> r == Err(load(dataPath.value).error)
  {
    match dataPath
    case None => Ok(None)
    case Some(path) =>
      var value :- load(path);
      Ok(Some(value))
  }

  /** `compile` returns the engine's diagnostic for a template it rejects;
      `load` reads and parses a data file. */
  function Prepare(argv: seq<string>, compile: string -> Option<string>, load: string -> Result<Value>): (r: Result<Prepared>)
    requires ReportsMessages(load)
    ensures LoadArgs(argv).Err? ==> r == Err(LoadArgs(argv).error)
    ensures r.Ok? ==> LoadArgs(argv) == Ok(r.value.options) && compile(r.value.options.tplPath).None?
    ensures r.Ok? ==> forall k :: k in r.value.options.vars ==>
                        k in r.value.context && r.value.context[k] == Str(r.value.options.vars[k])
    ensures r.Ok? && r.value.options.dataPath.None? ==> r.value.context == StringVars(r.value.options.vars)
    ensures LoadArgs(argv).Ok? && compile(LoadArgs(argv).value.tplPath).Some? ==>
              r == Err(Failed(TemplateParseFailure + compile(LoadArgs(argv).value.tplPath).value))
    ensures LoadArgs(argv).Ok? && compile(LoadArgs(argv).value.tplPath).None? && LoadArgs(argv).value.dataPath.None? ==>
              r == Ok(Prepared(LoadArgs(argv).value, StringVars(LoadArgs(argv).value.vars)))
    ensures LoadArgs(argv).Ok? && compile(LoadArgs(argv).value.tplPath).None? && LoadArgs(argv).value.dataPath.Some? ==>
              var o, path := LoadArgs(argv).value, LoadArgs(argv).value.dataPath.value;
              && (load(path).Err? ==> r == Err(load(path).error))
              && (load(path).Ok? && !load(path).value.Table? ==> r == Err(DataNotTable))
              && (load(path).Ok? && load(path).value.Table? ==>
                    && r.Ok?
                    && r.value.context.Keys == load(path).value.entries.Keys + o.vars.Keys
                    && forall k :: k in load(path).value.entries && k !in o.vars ==>
                                     r.value.context[k] == load(path).value.entries[k])
  {
    var options :- LoadArgs(argv);
    var diagnostic := compile(options.tplPath);
    if diagnostic.Some? then Err(Failed(TemplateParseFailure + diagnostic.value))
    else
      var data :- LoadData(options.dataPath, load);
      var context :- MergeContext(data, options.vars);
      Ok(Prepared(options, context))
  }

  /** No arguments at all: usage failure, and no collaborator is consulted. */
  lemma NoArgumentsIsUsage(name: string, compile: string -> Option<string>, load: string -> Result<Value>)
    requires ReportsMessages(load)
    ensures Prepare([name], compile, load) == Err(Usage)
    ensures Prepare([], compile, load) == Err(Usage)
  {
  }

  /** `-v:name World template.txt` with no data file: the context is just `name`. */
  lemma InlineVariableScenario(compile: string -> Option<string>, load: string -> Result<Value>)
    requires ReportsMessages(load)
    requires compile("template.txt").None?
    ensures Prepare(["tpl-gen", "-v:name", "World", "template.txt"], compile, load)
         == Ok(Prepared(CmdOption("template.txt", None, None, map["name" := "World"]),
                        map["name" := Str("World")]))
  {
    var argv := ["tpl-gen", "-v:name", "World", "template.txt"];
    assert IsVarFlag("-v:name") && VarName("-v:name") == "name";
    assert "template.txt"[..3] == "tem";
    assert !IsFlag("template.txt");
    assert Arguments(argv)[2..] == ["template.txt"];
    assert StringVars(map["name" := "World"]) == map["name" := Str("World")];
  }

  /** A data file defining `title` and `-v:title Override`: the variable wins. */
  lemma OverrideBeatsDataScenario(compile: string -> Option<string>, load: string -> Result<Value>)
    requires ReportsMessages(load)
    requires compile("template.txt").None?
    requires load("data.toml") == Ok(Table(map["title" := Str("Report")]))
    ensures var r := Prepare(["tpl-gen", "-d", "data.toml", "-v:title", "Override", "template.txt"], compile, load);
            r.Ok? && r.value.context == map["title" := Str("Override")]
  {
    var argv := ["tpl-gen", "-d", "data.toml", "-v:title", "Override", "template.txt"];
    var toks := Arguments(argv);
    assert IsVarFlag("-v:title") && VarName("-v:title") == "title";
    assert "template.txt"[..3] == "tem";
    assert !IsFlag("template.txt");
    assert toks[2..] == ["-v:title", "Override", "template.txt"];
    assert toks[2..][2..] == ["template.txt"];
    var r := Prepare(argv, compile, load);
    assert r.value.context.Keys == {"title"};
  }

  /** A data document whose root is not a table stops the pipeline. */
  lemma NonTableRootScenario(compile: string -> Option<string>, load: string -> Result<Value>)
    requires ReportsMessages(load)
    requires compile("template.txt").None?
    requires load("data.toml").Ok? && !load("data.toml").value.Table?
    ensures Prepare(["tpl-gen", "-d", "data.toml", "template.txt"], compile, load) == Err(DataNotTable)
  {
    var argv := ["tpl-gen", "-d", "data.toml", "template.txt"];
    assert "template.txt"[..3] == "tem";
    assert !IsFlag("template.txt");
    assert Arguments(argv)[2..] == ["template.txt"];
  }
}
