/*
 * The script generator of src/duckdb_fastapi/to_duckdb.py: every operation of
 * an OpenAPI document that has an operation id becomes one DuckDB macro that
 * fetches the operation's URL through `http_get_table`.
 */
module ToDuckdb {
  import opened Wrappers
  import opened Text

  // ---------------------------------------------------------------------
  // The part of the OpenAPI document the generator reads.
  // ---------------------------------------------------------------------

  /** Where a parameter is carried (the `in` field of a Parameter Object). */
  datatype Location = PathLoc | QueryLoc | HeaderLoc | CookieLoc

  datatype Parameter = Parameter(location: Location, name: string)

  /**
   * One operation of a path item: the method key it is listed under, its
   * `operationId` if any, and its parameters (an absent list is empty).
   */
  datatype Operation = Operation(verb: string, operationId: Option<string>, parameters: seq<Parameter>)

  /** A path and its operations, in the document's order. */
  datatype PathItem = PathItem(path: string, operations: seq<Operation>)

  type Schema = seq<PathItem>

  // ---------------------------------------------------------------------
  // Specification of one macro.
  // ---------------------------------------------------------------------

  /** The names of the parameters carried at `loc`, in declared order. */
  function NamesAt(params: seq<Parameter>, loc: Location): seq<string>
    decreases |params|
  {
    if params == [] then []
    else
      NamesAt(params[..|params| - 1], loc)
      + (if params[|params| - 1].location == loc then [params[|params| - 1].name] else [])
  }

  /** The macro's parameters: path parameters, then query parameters. */
  function MacroParamNames(op: Operation): seq<string> {
    NamesAt(op.parameters, PathLoc) + NamesAt(op.parameters, QueryLoc)
  }

  /** `<name> VARCHAR` for each name. */
  function VarcharDeclarations(names: seq<string>): seq<string> {
    seq(|names|, k requires 0 <= k < |names| => names[k] + " VARCHAR")
  }

  /** The text between the macro's parentheses. */
  function ParamListText(names: seq<string>): string {
    Join(VarcharDeclarations(names), ", ")
  }

  /** `{name}` in a path. */
  function Placeholder(name: string): string {
    "{" + name + "}"
  }

  /** What a placeholder becomes: the literal is closed, the argument concatenated, the literal reopened. */
  function Splice(name: string): string {
    "' || " + name + " || '"
  }

  /** The path after replacing the placeholder of each name in turn. */
  function RewriteUrl(url: string, names: seq<string>): string
    decreases |names|
  {
    if names == [] then url
    else RewriteUrl(ReplaceAll(url, Placeholder(names[0]), Splice(names[0])), names[1..])
  }

  /** Twelve spaces: the indentation of the template's lines. */
  const Indent := "            "

  /** Sixteen spaces: the indentation of the call's arguments. */
  const ArgIndent := Indent + "    "

  /** The block's first line: the macro's name and parameter list. */
  function MacroHeader(operationId: string, paramList: string): string {
    "CREATE OR REPLACE MACRO " + operationId + "(" + paramList + ") AS\n"
  }

  /** The block's remaining lines: the `http_get_table` call on the URL with the method. */
  function MacroBody(url: string, verb: string): string {
    Indent + "SELECT * \n"
    + Indent + "FROM http_get_table(\n"
    + ArgIndent + "'http://localhost:8000" + url + "',\n"
    + ArgIndent + "{'method': '" + verb + "'}::JSON\n"
    + Indent + ");"
  }

  /** A macro block without the whitespace around it. */
  function MacroCore(operationId: string, paramList: string, url: string, verb: string): string {
    MacroHeader(operationId, paramList) + MacroBody(url, verb)
  }

  /** The template as written, before `strip()`. */
  function RawMacroText(operationId: string, paramList: string, url: string, verb: string): string {
    "\n" + Indent + MacroCore(operationId, paramList, url, verb) + "\n" + Indent
  }

  /** An operation yields a macro exactly when its `operationId` is present and not empty. */
  predicate Retained(op: Operation) {
    op.operationId.Some? && op.operationId.value != []
  }

  /**
   * The block one retained operation at `path` yields: the template with the
   * whitespace around it removed (`StripRemovesOnlyOuterIndent`).
   */
  function OperationBlock(path: string, op: Operation): string
    requires Retained(op)
  {
    var names := MacroParamNames(op);
    MacroCore(op.operationId.value, ParamListText(names), RewriteUrl(path, names), ToUpper(op.verb))
  }

  /** The blocks of a path's operations, skipping those without an id. */
  function OperationBlocks(path: string, ops: seq<Operation>): seq<string>
    decreases |ops|
  {
    if ops == [] then []
    else
      var op := ops[|ops| - 1];
      OperationBlocks(path, ops[..|ops| - 1]) + (if Retained(op) then [OperationBlock(path, op)] else [])
  }

  /** The blocks of the whole document, path by path. */
  function Blocks(schema: Schema): seq<string>
    decreases |schema|
  {
    if schema == [] then []
    else
      var item := schema[|schema| - 1];
      Blocks(schema[..|schema| - 1]) + OperationBlocks(item.path, item.operations)
  }

  /** The generated script: the blocks separated by blank lines. */
  function Script(schema: Schema): string {
    Join(Blocks(schema), "\n\n")
  }

  // ---------------------------------------------------------------------
  // create_duckdb_macros.
  // ---------------------------------------------------------------------

  /** One pass over the parameters: appends the name and declaration of each one carried at `loc`. */
  method CollectAt(parameters: seq<Parameter>, loc: Location, names0: seq<string>, declarations0: seq<string>)
    returns (names: seq<string>, declarations: seq<string>)
    requires declarations0 == VarcharDeclarations(names0)
    ensures names == names0 + NamesAt(parameters, loc)
    ensures declarations == VarcharDeclarations(names)
  {
    names, declarations := names0, declarations0;
    for k := 0 to |parameters|
      invariant names == names0 + NamesAt(parameters[..k], loc)
      invariant declarations == VarcharDeclarations(names)
    {
      assert parameters[..k + 1][..k] == parameters[..k];
      if parameters[k].location == loc {
        names := names + [parameters[k].name];
        declarations := declarations + [parameters[k].name + " VARCHAR"];
      }
    }
    assert parameters[..|parameters|] == parameters;
  }

  /** The replace loop: each name's placeholder in turn becomes its splice. */
  method RewritePath(path: string, names: seq<string>) returns (url: string)
    ensures url == RewriteUrl(path, names)
  {
    url := path;
    for k := 0 to |names|
      invariant RewriteUrl(url, names[k..]) == RewriteUrl(path, names)
    {
      assert names[k..][1..] == names[k + 1..];
      url := ReplaceAll(url, "{" + names[k] + "}", "' || " + names[k] + " || '");
    }
  }

  /** The body of the inner loop for an operation that has an id: its macro block. */
  method BuildMacro(path: string, op: Operation) returns (macro: string)
    requires Retained(op)
    ensures macro == OperationBlock(path, op)
  {
    var operationId := op.operationId.value;
    var parameters := op.parameters;
    var paramNames, paramDeclarations := CollectAt(parameters, PathLoc, [], []);
    paramNames, paramDeclarations := CollectAt(parameters, QueryLoc, paramNames, paramDeclarations);
    var paramList := Join(paramDeclarations, ", ");
    // Computed as the source does; nothing below reads it.
    var paramValues := Join(seq(|paramNames|, p requires 0 <= p < |paramNames| => "'{" + paramNames[p] + "}'"), ", ");
    var url := RewritePath(path, paramNames);
    assert paramNames == MacroParamNames(op);
    assert paramList == ParamListText(paramNames);
    macro := Strip(RawMacroText(operationId, paramList, url, ToUpper(op.verb)));
    StripRemovesOnlyOuterIndent(operationId, paramList, url, ToUpper(op.verb));
  }

  /** `create_duckdb_macros`, over the operations of an already generated document. */
  method CreateDuckdbMacros(schema: Schema) returns (script: string)
    ensures script == Script(schema)
  {
    var macros: seq<string> := [];
    for i := 0 to |schema|
      invariant macros == Blocks(schema[..i])
    {
      var path := schema[i].path;
      var ops := schema[i].operations;
      for j := 0 to |ops|
        invariant macros == Blocks(schema[..i]) + OperationBlocks(path, ops[..j])
      {
        assert ops[..j + 1][..j] == ops[..j];
        var op := ops[j];
        if op.operationId.None? || op.operationId.value == [] {
          continue;
        }
        var macro := BuildMacro(path, op);
        macros := macros + [macro];
      }
      assert ops[..|ops|] == ops;
      assert schema[..i + 1][..i] == schema[..i];
    }
    assert schema[..|schema|] == schema;
    script := Join(macros, "\n\n");
  }

  // ---------------------------------------------------------------------
  // Properties of the generated text.
  // ---------------------------------------------------------------------

  /** Collecting names keeps declared order: it distributes over concatenation. */
  lemma {:induction false} NamesAtAppend(a: seq<Parameter>, b: seq<Parameter>, loc: Location)
    ensures NamesAt(a + b, loc) == NamesAt(a, loc) + NamesAt(b, loc)
    decreases |b|
  {
    if b != [] {
      var b' := b[..|b| - 1];
      assert (a + b)[..|a + b| - 1] == a + b';
      NamesAtAppend(a, b', loc);
    } else {
      assert a + b == a;
    }
  }

  /** A name is collected at `loc` exactly when some parameter at `loc` carries it. */
  lemma {:induction false} NamesAtMembers(params: seq<Parameter>, loc: Location, x: string)
    ensures x in NamesAt(params, loc) <==>
      exists k :: 0 <= k < |params| && params[k].location == loc && params[k].name == x
    decreases |params|
  {
    if params != [] {
      var init := params[..|params| - 1];
      NamesAtMembers(init, loc, x);
      if exists k :: 0 <= k < |init| && init[k].location == loc && init[k].name == x {
        var k :| 0 <= k < |init| && init[k].location == loc && init[k].name == x;
        assert params[k] == init[k];
      }
      if exists k :: 0 <= k < |params| && params[k].location == loc && params[k].name == x {
        var k :| 0 <= k < |params| && params[k].location == loc && params[k].name == x;
        if k < |init| {
          assert init[k] == params[k];
        }
      }
    }
  }

  /**
   * The macro's parameters are the path parameters followed by the query
   * parameters; a name is among them exactly when a path or query parameter
   * carries it, so header and cookie parameters are dropped.
   */
  lemma MacroParameters(op: Operation, x: string)
    ensures MacroParamNames(op) == NamesAt(op.parameters, PathLoc) + NamesAt(op.parameters, QueryLoc)
    ensures x in MacroParamNames(op) <==>
      exists k :: 0 <= k < |op.parameters| && op.parameters[k].name == x
        && (op.parameters[k].location == PathLoc || op.parameters[k].location == QueryLoc)
  {
    NamesAtMembers(op.parameters, PathLoc, x);
    NamesAtMembers(op.parameters, QueryLoc, x);
  }

  /**
   * Without path or query parameters the block declares `<operationId>()`
   * and calls the path as it is.
   */
  lemma NoParametersEmptySignature(path: string, op: Operation)
    requires Retained(op)
    requires MacroParamNames(op) == []
    ensures OperationBlock(path, op) == MacroCore(op.operationId.value, "", path, ToUpper(op.verb))
    ensures MacroHeader(op.operationId.value, "") == "CREATE OR REPLACE MACRO " + op.operationId.value + "() AS\n"
  {
  }

  /** A declaration `<name> VARCHAR` for a plain name has no comma and no edge whitespace. */
  lemma DeclarationPlain(name: string)
    requires name != [] && ',' !in name && Trimmed(name)
    ensures var d := name + " VARCHAR"; ',' !in d && Trimmed(d)
  {
    var d := name + " VARCHAR";
    assert d[0] == name[0];
    assert d[|d| - 1] == 'R';
    assert forall k :: 0 <= k < |d| ==> d[k] != ',' by {
      forall k | 0 <= k < |d| ensures d[k] != ',' {
        if k >= |name| {
          assert d[k] == " VARCHAR"[k - |name|];
        } else {
          assert d[k] == name[k];
        }
      }
    }
  }

  /**
   * The parameter list reads back, comma piece by comma piece, as one
   * `<name> VARCHAR` declaration per name, in order.
   */
  lemma ParamListReadsBack(names: seq<string>)
    requires |names| >= 1
    requires forall k :: 0 <= k < |names| ==> names[k] != [] && ',' !in names[k] && Trimmed(names[k])
    ensures StripAll(SplitOn(ParamListText(names), ',')) == VarcharDeclarations(names)
    ensures forall k :: 0 <= k < |names| ==> VarcharDeclarations(names)[k] == names[k] + " VARCHAR"
  {
    var decls := VarcharDeclarations(names);
    forall k | 0 <= k < |decls|
      ensures ',' !in decls[k] && Trimmed(decls[k])
    {
      DeclarationPlain(names[k]);
    }
    CommaListRoundTrip(decls);
  }

  /** The literal `{` is the first character of every placeholder. */
  lemma PlaceholderAbsent(url: string, name: string)
    requires '{' !in url
    ensures !Contains(url, Placeholder(name))
  {
    var pat := Placeholder(name);
    forall i ensures !OccursAt(url, pat, i) {
      if 0 <= i && i + |pat| <= |url| {
        assert url[i] != pat[0];
      }
    }
  }

  /** A path without `{` is emitted unchanged. */
  lemma {:induction false} RewriteNoBraces(url: string, names: seq<string>)
    requires '{' !in url
    ensures RewriteUrl(url, names) == url
    decreases |names|
  {
    if names != [] {
      PlaceholderAbsent(url, names[0]);
      ReplaceAbsent(url, Placeholder(names[0]), Splice(names[0]));
      RewriteNoBraces(url, names[1..]);
    }
  }

  /**
   * A path holding one placeholder has it replaced by the splice of the
   * parameter, with the text around it kept.
   */
  lemma RewriteOnePlaceholder(before: string, name: string, after: string)
    requires '{' !in before && '{' !in after
    ensures RewriteUrl(before + Placeholder(name) + after, [name]) == before + Splice(name) + after
  {
    var pat := Placeholder(name);
    ReplaceFirst(before, pat, after, Splice(name));
    PlaceholderAbsent(after, name);
    ReplaceAbsent(after, pat, Splice(name));
    assert [name][1..] == [];
  }

  /** A parameter name without braces, so that its placeholder cannot overlap another one. */
  predicate PlainParam(name: string) {
    '{' !in name && '}' !in name
  }

  /** A placeholder in a path template and the literal text that follows it. */
  datatype Segment = Segment(name: string, after: string)

  /** The segments as written in the path: `{name}` then the text after it, for each. */
  function Placeholders(segments: seq<Segment>): string
    decreases |segments|
  {
    if segments == [] then []
    else Placeholder(segments[0].name) + segments[0].after + Placeholders(segments[1..])
  }

  /** The segments with every placeholder replaced by the splice of its name. */
  function Splices(segments: seq<Segment>): string
    decreases |segments|
  {
    if segments == [] then []
    else Splice(segments[0].name) + segments[0].after + Splices(segments[1..])
  }

  /** One placeholder part way through the replace loop: spliced once its name is in `done`. */
  function SegmentText(name: string, done: set<string>): string {
    if name in done then Splice(name) else Placeholder(name)
  }

  /** The segments part way through the replace loop: the names in `done` are already spliced. */
  function PartlySpliced(segments: seq<Segment>, done: set<string>): string
    decreases |segments|
  {
    if segments == [] then []
    else SegmentText(segments[0].name, done) + segments[0].after + PartlySpliced(segments[1..], done)
  }

  lemma {:induction false} NothingSpliced(segments: seq<Segment>)
    ensures PartlySpliced(segments, {}) == Placeholders(segments)
    decreases |segments|
  {
    if segments != [] {
      NothingSpliced(segments[1..]);
    }
  }

  lemma {:induction false} AllSpliced(segments: seq<Segment>, done: set<string>)
    requires forall k :: 0 <= k < |segments| ==> segments[k].name in done
    ensures PartlySpliced(segments, done) == Splices(segments)
    decreases |segments|
  {
    if segments != [] {
      AllSpliced(segments[1..], done);
    }
  }

  /** The placeholder of one plain name is never a prefix of the placeholder of another. */
  lemma PlaceholdersDiffer(a: string, h: string, rest: string)
    requires PlainParam(a) && PlainParam(h) && a != h
    ensures !(Placeholder(a) <= Placeholder(h) + rest)
  {
    var p := Placeholder(a);
    var q := Placeholder(h) + rest;
    if |a| < |h| {
      assert p[|a| + 1] != q[|a| + 1];
    } else if |h| < |a| {
      assert p[|h| + 1] != q[|h| + 1];
    } else {
      var k :| 0 <= k < |a| && a[k] != h[k];
      assert p[k + 1] != q[k + 1];
    }
  }

  /** A splice of a name without `{` has no `{` either. */
  lemma SpliceNoBrace(name: string)
    requires '{' !in name
    ensures '{' !in Splice(name)
  {
    forall k | 0 <= k < |Splice(name)| ensures Splice(name)[k] != '{' {
      var n := |name|;
      if k < 5 {
        assert Splice(name)[k] == "' || "[k];
      } else if k < 5 + n {
        assert Splice(name)[k] == name[k - 5];
      } else {
        assert Splice(name)[k] == " || '"[k - 5 - n];
      }
    }
  }

  /** A segment already spliced is copied by the replace of another name. */
  lemma ReplaceAtSplice(head: string, name: string, after: string, rest: string, a: string)
    requires '{' !in head && '{' !in after && '{' !in name
    ensures ReplaceAll(head + Splice(name) + after + rest, Placeholder(a), Splice(a))
      == head + Splice(name) + after + ReplaceAll(rest, Placeholder(a), Splice(a))
  {
    SpliceNoBrace(name);
    var y := head + Splice(name) + after;
    assert '{' !in y;
    assert head + Splice(name) + after + rest == y + rest;
    ReplaceSkip(y, rest, Placeholder(a), Splice(a));
  }

  /** The placeholder of `a` itself is spliced. */
  lemma ReplaceAtOwn(head: string, after: string, rest: string, a: string)
    requires '{' !in head && '{' !in after
    ensures ReplaceAll(head + Placeholder(a) + after + rest, Placeholder(a), Splice(a))
      == head + Splice(a) + after + ReplaceAll(rest, Placeholder(a), Splice(a))
  {
    var pat := Placeholder(a);
    assert head + pat + after + rest == head + pat + (after + rest);
    ReplaceFirst(head, pat, after + rest, Splice(a));
    ReplaceSkip(after, rest, pat, Splice(a));
  }

  /** The placeholder of another plain name is copied. */
  lemma ReplaceAtOther(head: string, name: string, after: string, rest: string, a: string)
    requires '{' !in head && '{' !in after && PlainParam(a) && PlainParam(name) && name != a
    ensures ReplaceAll(head + Placeholder(name) + after + rest, Placeholder(a), Splice(a))
      == head + Placeholder(name) + after + ReplaceAll(rest, Placeholder(a), Splice(a))
  {
    var pat := Placeholder(a);
    var rep := Splice(a);
    var tail := name + "}" + after;
    var u := Placeholder(name) + after + rest;
    assert head + Placeholder(name) + after + rest == head + u;
    ReplaceSkip(head, u, pat, rep);
    PlaceholdersDiffer(a, name, after + rest);
    assert u == "{" + (tail + rest);
    assert ReplaceAll(u, pat, rep) == "{" + ReplaceAll(tail + rest, pat, rep);
    ReplaceSkip(tail, rest, pat, rep);
    assert "{" + (tail + ReplaceAll(rest, pat, rep)) == Placeholder(name) + after + ReplaceAll(rest, pat, rep);
  }

  /** Replacing `{a}` in front of one segment: it is spliced exactly when its name is `a`. */
  lemma ReplaceSegment(head: string, name: string, after: string, rest: string, done: set<string>, a: string)
    requires '{' !in head && '{' !in after && PlainParam(a) && PlainParam(name)
    ensures ReplaceAll(head + SegmentText(name, done) + after + rest, Placeholder(a), Splice(a))
      == head + SegmentText(name, done + {a}) + after + ReplaceAll(rest, Placeholder(a), Splice(a))
  {
    if name in done {
      ReplaceAtSplice(head, name, after, rest, a);
    } else if name == a {
      ReplaceAtOwn(head, after, rest, a);
    } else {
      ReplaceAtOther(head, name, after, rest, a);
    }
  }

  lemma PartlySplicedFirst(head: string, segments: seq<Segment>, done: set<string>)
    requires segments != []
    ensures head + PartlySpliced(segments, done)
      == head + SegmentText(segments[0].name, done) + segments[0].after + PartlySpliced(segments[1..], done)
  {
  }

  /** One `url.replace("{a}", "' || a || '")` step splices the placeholders of `a` and nothing else. */
  lemma {:induction false} ReplaceOneName(head: string, segments: seq<Segment>, done: set<string>, a: string)
    requires '{' !in head && PlainParam(a)
    requires forall k :: 0 <= k < |segments| ==> '{' !in segments[k].after && PlainParam(segments[k].name)
    ensures ReplaceAll(head + PartlySpliced(segments, done), Placeholder(a), Splice(a))
      == head + PartlySpliced(segments, done + {a})
    decreases |segments|
  {
    if segments == [] {
      assert head + PartlySpliced(segments, done) == head;
      PlaceholderAbsent(head, a);
      ReplaceAbsent(head, Placeholder(a), Splice(a));
    } else {
      var s := segments[0];
      var rest := PartlySpliced(segments[1..], done);
      var rest' := PartlySpliced(segments[1..], done + {a});
      ReplaceOneName([], segments[1..], done, a);
      assert [] + rest == rest && [] + rest' == rest';
      ReplaceSegment(head, s.name, s.after, rest, done, a);
      PartlySplicedFirst(head, segments, done);
      PartlySplicedFirst(head, segments, done + {a});
    }
  }

  /** The replace loop, from any point on: each further name gets its placeholders spliced. */
  lemma {:induction false} RewriteFrom(head: string, segments: seq<Segment>, done: set<string>, names: seq<string>)
    requires '{' !in head
    requires forall k :: 0 <= k < |names| ==> PlainParam(names[k])
    requires forall k :: 0 <= k < |segments| ==> '{' !in segments[k].after && PlainParam(segments[k].name)
    ensures RewriteUrl(head + PartlySpliced(segments, done), names)
      == head + PartlySpliced(segments, done + (set n | n in names))
    decreases |names|
  {
    if names == [] {
      assert done + (set n | n in names) == done;
    } else {
      ReplaceOneName(head, segments, done, names[0]);
      RewriteFrom(head, segments, done + {names[0]}, names[1..]);
      assert done + {names[0]} + (set n | n in names[1..]) == done + (set n | n in names);
    }
  }

  /**
   * Every placeholder `{p}` of a collected parameter `p` becomes `' || p || '`,
   * however many placeholders the path has and however often one repeats;
   * the literal text between them is kept. A path such as
   * `/users/{uid}/posts/{pid}` is the head `/users/` followed by the segments
   * `(uid, "/posts/")` and `(pid, "")`.
   */
  lemma RewriteEveryPlaceholder(head: string, segments: seq<Segment>, names: seq<string>)
    requires '{' !in head
    requires forall k :: 0 <= k < |names| ==> PlainParam(names[k])
    requires forall k :: 0 <= k < |segments| ==> '{' !in segments[k].after && segments[k].name in names
    ensures RewriteUrl(head + Placeholders(segments), names) == head + Splices(segments)
  {
    NothingSpliced(segments);
    RewriteFrom(head, segments, {}, names);
    AllSpliced(segments, {} + (set n | n in names));
  }

  /**
   * `strip()` removes only the newline and indentation around the template:
   * the block starts at `CREATE` and ends at `);`, and the interior lines keep
   * their indentation.
   */
  lemma StripRemovesOnlyOuterIndent(operationId: string, paramList: string, url: string, verb: string)
    ensures Strip(RawMacroText(operationId, paramList, url, verb)) == MacroCore(operationId, paramList, url, verb)
  {
    var core := MacroCore(operationId, paramList, url, verb);
    var lead := "\n" + Indent;
    var trail := "\n" + Indent;
    assert core[0] == 'C';
    assert core[|core| - 1] == ';';
    assert AllSpace(lead);
    assert RawMacroText(operationId, paramList, url, verb) == lead + core + trail;
    StripAround(lead, core, trail);
  }

  /**
   * The block of a retained operation starts with `CREATE OR REPLACE MACRO`
   * and the operation id, opening the parameter list, and ends with `);`.
   */
  lemma BlockShape(path: string, op: Operation)
    requires Retained(op)
    ensures var block := OperationBlock(path, op);
      var head := "CREATE OR REPLACE MACRO " + op.operationId.value + "(";
      && |head| <= |block| && block[..|head|] == head
      && block[|block| - 2..] == ");"
  {
    var names := MacroParamNames(op);
    CoreFrame(op.operationId.value, ParamListText(names), RewriteUrl(path, names), ToUpper(op.verb));
  }

  lemma CoreFrame(operationId: string, paramList: string, url: string, verb: string)
    ensures var core := MacroCore(operationId, paramList, url, verb);
      var head := "CREATE OR REPLACE MACRO " + operationId + "(";
      && |head| <= |core| && core[..|head|] == head
      && core[|core| - 2..] == ");"
  {
    var header := MacroHeader(operationId, paramList);
    var body := MacroBody(url, verb);
    var head := "CREATE OR REPLACE MACRO " + operationId + "(";
    assert header == head + (paramList + ") AS\n");
    assert (header + body)[..|head|] == header[..|head|] == head;
    assert (header + body)[|header + body| - 2..] == body[|body| - 2..] == ");";
  }

  lemma OperationBlockNotEmpty(path: string, op: Operation)
    requires Retained(op)
    ensures OperationBlock(path, op) != []
  {
    BlockShape(path, op);
  }

  /** Every block in a path's output comes from a retained operation of that path. */
  lemma {:induction false} OperationBlocksSound(path: string, ops: seq<Operation>, k: nat)
    requires k < |OperationBlocks(path, ops)|
    ensures exists j :: 0 <= j < |ops| && Retained(ops[j]) && OperationBlocks(path, ops)[k] == OperationBlock(path, ops[j])
    decreases |ops|
  {
    var init := ops[..|ops| - 1];
    var last := ops[|ops| - 1];
    var front := OperationBlocks(path, init);
    OperationBlocksExtend(path, init, last);
    assert init + [last] == ops;
    if k < |front| {
      OperationBlocksSound(path, init, k);
      var j :| 0 <= j < |init| && Retained(init[j]) && front[k] == OperationBlock(path, init[j]);
      assert ops[j] == init[j];
    } else {
      assert OperationBlocks(path, ops)[k] == OperationBlock(path, ops[|ops| - 1]);
    }
  }

  /** Every retained operation of a path has its block in the path's output. */
  lemma {:induction false} OperationBlocksComplete(path: string, ops: seq<Operation>, j: nat)
    requires j < |ops| && Retained(ops[j])
    ensures OperationBlock(path, ops[j]) in OperationBlocks(path, ops)
    decreases |ops|
  {
    var init := ops[..|ops| - 1];
    var front := OperationBlocks(path, init);
    if j < |init| {
      OperationBlocksExtend(path, init, ops[|ops| - 1]);
      assert init + [ops[|ops| - 1]] == ops;
      assert ops[j] == init[j];
      OperationBlocksComplete(path, init, j);
    } else {
      OperationBlocksExtend(path, init, ops[j]);
      assert init + [ops[j]] == ops;
    }
  }

  /** Appending an operation appends its block when it is retained, and nothing otherwise. */
  lemma OperationBlocksExtend(path: string, ops: seq<Operation>, op: Operation)
    ensures Retained(op) ==> OperationBlocks(path, ops + [op]) == OperationBlocks(path, ops) + [OperationBlock(path, op)]
    ensures !Retained(op) ==> OperationBlocks(path, ops + [op]) == OperationBlocks(path, ops)
  {
    assert (ops + [op])[..|ops|] == ops;
  }

  /** A path contributes no block exactly when none of its operations has an id. */
  lemma {:induction false} OperationBlocksEmpty(path: string, ops: seq<Operation>)
    ensures OperationBlocks(path, ops) == [] <==> forall j :: 0 <= j < |ops| ==> !Retained(ops[j])
    decreases |ops|
  {
    if ops != [] {
      var init := ops[..|ops| - 1];
      OperationBlocksEmpty(path, init);
      assert forall j :: 0 <= j < |init| ==> init[j] == ops[j];
    }
  }

  /** The document contributes no block exactly when no operation in it has an id. */
  lemma {:induction false} BlocksEmpty(schema: Schema)
    ensures Blocks(schema) == [] <==>
      forall i, j :: 0 <= i < |schema| && 0 <= j < |schema[i].operations| ==> !Retained(schema[i].operations[j])
    decreases |schema|
  {
    if schema != [] {
      var init := schema[..|schema| - 1];
      var item := schema[|schema| - 1];
      BlocksEmpty(init);
      OperationBlocksEmpty(item.path, item.operations);
      assert forall i :: 0 <= i < |init| ==> init[i] == schema[i];
    }
  }

  /** Joining non-empty parts gives the empty text only when there are no parts. */
  lemma {:induction false} JoinNotEmpty(parts: seq<string>, sep: string)
    requires forall k :: 0 <= k < |parts| ==> parts[k] != []
    ensures Join(parts, sep) == [] <==> parts == []
  {
    if |parts| >= 2 {
      assert Join(parts, sep) == parts[0] + sep + Join(parts[1..], sep);
    }
  }

  lemma {:induction false} BlocksNotEmpty(schema: Schema)
    ensures forall k :: 0 <= k < |Blocks(schema)| ==> Blocks(schema)[k] != []
    decreases |schema|
  {
    if schema != [] {
      var init := schema[..|schema| - 1];
      var item := schema[|schema| - 1];
      BlocksNotEmpty(init);
      forall k | 0 <= k < |OperationBlocks(item.path, item.operations)|
        ensures OperationBlocks(item.path, item.operations)[k] != []
      {
        OperationBlocksSound(item.path, item.operations, k);
        var j :| 0 <= j < |item.operations| && Retained(item.operations[j])
          && OperationBlocks(item.path, item.operations)[k] == OperationBlock(item.path, item.operations[j]);
        OperationBlockNotEmpty(item.path, item.operations[j]);
      }
    }
  }

  /** The script is empty exactly when no operation in the document has an id. */
  lemma ScriptEmpty(schema: Schema)
    ensures Script(schema) == [] <==>
      forall i, j :: 0 <= i < |schema| && 0 <= j < |schema[i].operations| ==> !Retained(schema[i].operations[j])
  {
    BlocksNotEmpty(schema);
    JoinNotEmpty(Blocks(schema), "\n\n");
    BlocksEmpty(schema);
  }

  /** Blocks follow the operations' order within a path: output distributes over concatenation. */
  lemma {:induction false} OperationBlocksAppend(path: string, a: seq<Operation>, b: seq<Operation>)
    ensures OperationBlocks(path, a + b) == OperationBlocks(path, a) + OperationBlocks(path, b)
    decreases |b|
  {
    if b == [] {
      assert a + b == a;
    } else {
      var b' := b[..|b| - 1];
      var op := b[|b| - 1];
      assert a + b' + [op] == a + b;
      assert b' + [op] == b;
      OperationBlocksAppend(path, a, b');
      OperationBlocksExtend(path, a + b', op);
      OperationBlocksExtend(path, b', op);
      var tail := if Retained(op) then [OperationBlock(path, op)] else [];
      calc {
        OperationBlocks(path, a + b);
        OperationBlocks(path, a + b') + tail;
        OperationBlocks(path, a) + OperationBlocks(path, b') + tail;
        OperationBlocks(path, a) + (OperationBlocks(path, b') + tail);
        OperationBlocks(path, a) + OperationBlocks(path, b);
      }
    }
  }

  /** Blocks follow the paths' order in the document. */
  lemma {:induction false} BlocksAppend(a: Schema, b: Schema)
    ensures Blocks(a + b) == Blocks(a) + Blocks(b)
    decreases |b|
  {
    if b == [] {
      assert a + b == a;
    } else {
      var b' := b[..|b| - 1];
      var item := b[|b| - 1];
      var more := OperationBlocks(item.path, item.operations);
      BlocksAppend(a, b');
      assert (a + b)[..|a + b| - 1] == a + b';
      assert (a + b)[|a + b| - 1] == item;
      assert Blocks(a + b) == Blocks(a + b') + more;
      assert Blocks(b) == Blocks(b') + more;
      assert Blocks(a + b) == Blocks(a) + (Blocks(b') + more);
    }
  }

  /** Every retained operation of the document has its block in the output. */
  lemma {:induction false} BlocksComplete(schema: Schema, i: nat, j: nat)
    requires i < |schema| && j < |schema[i].operations| && Retained(schema[i].operations[j])
    ensures OperationBlock(schema[i].path, schema[i].operations[j]) in Blocks(schema)
    decreases |schema|
  {
    var init := schema[..|schema| - 1];
    var item := schema[|schema| - 1];
    assert Blocks(schema) == Blocks(init) + OperationBlocks(item.path, item.operations);
    if i < |init| {
      assert init[i] == schema[i];
      BlocksComplete(init, i, j);
    } else {
      OperationBlocksComplete(item.path, item.operations, j);
    }
  }

  /** Every block in the output comes from a retained operation of the document. */
  lemma {:induction false} BlocksSound(schema: Schema, k: nat)
    requires k < |Blocks(schema)|
    ensures exists i, j ::
              && 0 <= i < |schema| && 0 <= j < |schema[i].operations|
              && Retained(schema[i].operations[j])
              && Blocks(schema)[k] == OperationBlock(schema[i].path, schema[i].operations[j])
    decreases |schema|
  {
    var init := schema[..|schema| - 1];
    var item := schema[|schema| - 1];
    var front := Blocks(init);
    assert Blocks(schema) == front + OperationBlocks(item.path, item.operations);
    if k < |front| {
      BlocksSound(init, k);
      var i, j :| 0 <= i < |init| && 0 <= j < |init[i].operations|
        && Retained(init[i].operations[j])
        && front[k] == OperationBlock(init[i].path, init[i].operations[j]);
      assert schema[i] == init[i];
    } else {
      OperationBlocksSound(item.path, item.operations, k - |front|);
      var j :| 0 <= j < |item.operations| && Retained(item.operations[j])
        && OperationBlocks(item.path, item.operations)[k - |front|] == OperationBlock(item.path, item.operations[j]);
      assert schema[|schema| - 1] == item;
    }
  }

  /**
   * One path parameter, as `get_item` at `/items/{item_id}`: the signature is
   * `<id>(<name> VARCHAR)` and the placeholder becomes the spliced argument.
   */
  lemma PathParameterBlock(before: string, name: string, after: string, id: string, verb: string)
    requires id != [] && '{' !in before && '{' !in after
    ensures var op := Operation(verb, Some(id), [Parameter(PathLoc, name)]);
      OperationBlock(before + Placeholder(name) + after, op)
      == MacroCore(id, name + " VARCHAR", before + Splice(name) + after, ToUpper(verb))
  {
    var path := before + Placeholder(name) + after;
    var op := Operation(verb, Some(id), [Parameter(PathLoc, name)]);
    BlockShape(path, op);
    OnePathName(name);
    var names := MacroParamNames(op);
    assert names == [name];
    OneDeclaration(name);
    RewriteOnePlaceholder(before, name, after);
    var paramList := ParamListText(names);
    var url := RewriteUrl(path, names);
    assert paramList == name + " VARCHAR";
    assert url == before + Splice(name) + after;
    assert OperationBlock(path, op) == MacroCore(id, paramList, url, ToUpper(verb));
  }

  lemma OnePathName(name: string)
    ensures var params := [Parameter(PathLoc, name)];
      NamesAt(params, PathLoc) == [name] && NamesAt(params, QueryLoc) == []
  {
    var params := [Parameter(PathLoc, name)];
    assert params[..0] == [];
  }

  lemma OneDeclaration(name: string)
    ensures ParamListText([name]) == name + " VARCHAR"
  {
    assert VarcharDeclarations([name]) == [name + " VARCHAR"];
  }

  lemma TwoDeclarations(a: string, b: string)
    ensures ParamListText([a, b]) == a + " VARCHAR, " + b + " VARCHAR"
  {
    var decls := VarcharDeclarations([a, b]);
    assert decls == [a + " VARCHAR", b + " VARCHAR"];
    assert decls[1..] == [b + " VARCHAR"];
    assert Join(decls[1..], ", ") == b + " VARCHAR";
    assert Join(decls, ", ") == (a + " VARCHAR") + ", " + (b + " VARCHAR");
  }

  lemma TwoQueryNames(a: string, b: string)
    ensures var params := [Parameter(QueryLoc, a), Parameter(QueryLoc, b)];
      NamesAt(params, PathLoc) == [] && NamesAt(params, QueryLoc) == [a, b]
  {
    var params := [Parameter(QueryLoc, a), Parameter(QueryLoc, b)];
    var first := [Parameter(QueryLoc, a)];
    assert params[..1] == first;
    assert first[..0] == [];
    assert NamesAt(first, PathLoc) == [];
    assert NamesAt(first, QueryLoc) == [a];
    assert NamesAt(params, PathLoc) == NamesAt(first, PathLoc) + [];
    assert NamesAt(params, QueryLoc) == NamesAt(first, QueryLoc) + [b];
  }

  /**
   * Two query parameters, as `search_items` at `/search` with `q` and `limit`:
   * the signature is `<id>(<a> VARCHAR, <b> VARCHAR)` and a path without
   * placeholders is kept.
   */
  lemma QueryParametersBlock(path: string, a: string, b: string, id: string, verb: string)
    requires id != [] && '{' !in path
    ensures var op := Operation(verb, Some(id), [Parameter(QueryLoc, a), Parameter(QueryLoc, b)]);
      OperationBlock(path, op) == MacroCore(id, a + " VARCHAR, " + b + " VARCHAR", path, ToUpper(verb))
  {
    var op := Operation(verb, Some(id), [Parameter(QueryLoc, a), Parameter(QueryLoc, b)]);
    BlockShape(path, op);
    TwoQueryNames(a, b);
    var names := MacroParamNames(op);
    assert names == [a, b];
    TwoDeclarations(a, b);
    RewriteNoBraces(path, names);
  }
}
