/** Building the rendering context: the top-level entries of the data table
    first, then every `-v:` variable as a string, so that variables win. */
module Context {
  import opened Base

  /** A parsed data document. */
  datatype Value =
    | Str(s: string)
    | Int(i: int)
    | Bool(b: bool)
    | Array(items: seq<Value>)
    | Table(entries: map<string, Value>)

  /** The rendering context: variable name to renderable value. */
  type Ctx = map<string, Value>

  /** The command-line variables as context entries; they are always strings. */
  function StringVars(vars: map<string, string>): Ctx
  {
    map k | k in vars :: Str(vars[k])
  }

  /** The keys the data document contributes: those of its root table, none without one. */
  function DataKeys(data: Option<Value>): set<string>
  {
    if data.Some? && data.value.Table? then data.value.entries.Keys else {}
  }

  /** The merged context, or `DataNotTable` when the data root is not a table. */
  function MergeContext(data: Option<Value>, vars: map<string, string>): (r: Result<Ctx>)
    ensures r.Err? <==> data.Some? && !data.value.Table?
    ensures r.Err? ==> r.error == DataNotTable
    ensures r.Ok? ==> r.value.Keys == DataKeys(data) + vars.Keys
    ensures r.Ok? ==> forall k :: k in vars ==> r.value[k] == Str(vars[k])
    ensures r.Ok? && data.Some? ==>
              forall k :: k in data.value.entries && k !in vars ==> r.value[k] == data.value.entries[k]
  {
    match data
    case None => Ok(StringVars(vars))
    case Some(Table(entries)) => Ok(entries + StringVars(vars))
    case Some(_) => Err(DataNotTable)
  }

  /** Without a data file the context is exactly the variables, as strings. */
  lemma NoDataIsVarsOnly(vars: map<string, string>)
    ensures MergeContext(None, vars).Ok?
    ensures var ctx := MergeContext(None, vars).value;
            ctx.Keys == vars.Keys && forall k :: k in ctx ==> ctx[k] == Str(vars[k])
  {
  }

  /** With disjoint key sets nothing is overwritten: the context is the
      disjoint union, and its size the sum of both. */
  lemma DisjointMergeKeepsEverything(entries: map<string, Value>, vars: map<string, string>)
    requires entries.Keys !! vars.Keys
    ensures var r := MergeContext(Some(Table(entries)), vars);
            && r.Ok?
            && (forall k :: k in entries ==> r.value[k] == entries[k])
            && |r.value| == |entries| + |vars|
  {
    var ctx := MergeContext(Some(Table(entries)), vars).value;
    var keys := entries.Keys + vars.Keys;
    assert ctx.Keys == keys;
    assert |keys| == |entries.Keys| + |vars.Keys|;
    assert |ctx| == |ctx.Keys|;
  }

  /** Insert every entry of `table` into an empty context, one key at a
      time in an arbitrary order; the result is the table itself. */
  method InsertEntries(table: map<string, Value>) returns (ctx: Ctx)
    ensures ctx.Keys == table.Keys
    ensures forall k :: k in ctx ==> ctx[k] == table[k]
  {
    ctx := map[];
    var pending := table.Keys;
    while pending != {}
      invariant pending <= table.Keys
      invariant ctx.Keys == table.Keys - pending
      invariant forall k :: k in ctx ==> ctx[k] == table[k]
      decreases pending
    {
      var k :| k in pending;
      ctx := ctx[k := table[k]];
      pending := pending - {k};
    }
  }

  /** Insert every variable into `base` as a string, one key at a time in an
      arbitrary order, overwriting what `base` held for that key. */
  method InsertVars(base: Ctx, vars: map<string, string>) returns (ctx: Ctx)
    ensures ctx.Keys == base.Keys + vars.Keys
    ensures forall k :: k in vars ==> ctx[k] == Str(vars[k])
    ensures forall k :: k in base && k !in vars ==> ctx[k] == base[k]
  {
    ctx := base;
    var pending := vars.Keys;
    while pending != {}
      invariant pending <= vars.Keys
      invariant ctx.Keys == base.Keys + (vars.Keys - pending)
      invariant forall k :: k in vars && k !in pending ==> ctx[k] == Str(vars[k])
      invariant forall k :: k in ctx && (k !in vars || k in pending) ==> ctx[k] == base[k]
      decreases pending
    {
      var k :| k in pending;
      ctx := ctx[k := Str(vars[k])];
      pending := pending - {k};
    }
  }

  /** The merge as the source performs it: the table's entries first, then
      the variables, each in the hash maps' unspecified iteration order. */
  method AssembleContext(data: Option<Value>, vars: map<string, string>) returns (r: Result<Ctx>)
    ensures r == MergeContext(data, vars)
  {
    var base: Ctx := map[];
    if data.Some? {
      if !data.value.Table? {
        return Err(DataNotTable);
      }
      base := InsertEntries(data.value.entries);
      assert base == data.value.entries;
      assert MergeContext(data, vars) == Ok(base + StringVars(vars));
    } else {
      assert MergeContext(data, vars) == Ok(base + StringVars(vars)) by {
        assert base + StringVars(vars) == StringVars(vars);
      }
    }
    var ctx := InsertVars(base, vars);
    assert ctx == base + StringVars(vars);
    r := Ok(ctx);
  }
}
