/**
 * From catalog macros to HTTP endpoints (src/duckdb_fastapi/to_api.py).
 *
 * A macro's raw parameter string ("INTEGER rowcount, VARCHAR label") is parsed
 * into an ordered field table that names each request field and its type; the
 * handler bound to the macro turns the validated values back into the call
 * text `SELECT name(v1, v2, ...)`; and `create_app` registers one route per
 * macro at `/macro/<name>`, GET when the macro has no parameter string and
 * POST otherwise.
 */
module ToApi {
  import opened Wrappers
  import opened Text

  /** The types a request field can take: Python's str, int, float and bool. */
  datatype FieldType = Str | Int | Float | Bool

  /**
   * Type mapping of a lower-cased type word. The test for bool is written
   * against the plain string 'boolean', so it is Python's substring test:
   * every piece of the word "boolean" ("bool", "lean", ...) gives Bool.
   */
  function MapType(paramType: string): (t: FieldType)
    ensures t == Int <==> paramType == "integer" || paramType == "bigint"
    ensures t == Float <==> paramType == "double" || paramType == "float"
    ensures t == Bool <==>
      && paramType !in {"integer", "bigint", "double", "float"}
      && exists i :: OccursAt("boolean", paramType, i)
  {
    if paramType == "integer" || paramType == "bigint" then Int
    else if paramType == "double" || paramType == "float" then Float
    else if Contains("boolean", paramType) then Bool
    else Str
  }

  /** Every piece of "boolean", from "" to the whole word, maps to Bool. */
  lemma PiecesOfBooleanAreBool(i: nat, j: nat)
    requires i <= j <= |"boolean"|
    ensures MapType("boolean"[i..j]) == Bool
  {
    var piece := "boolean"[i..j];
    assert OccursAt("boolean", piece, i);
    assert piece != "integer" by {
      if |piece| == 7 { assert i == 0 && piece[0] == 'b'; }
    }
    assert piece != "bigint" && piece != "double" by {
      if |piece| == 6 {
        assert i == 0 || i == 1;
        assert piece[0] == "boolean"[i] && piece[1] == "boolean"[i + 1];
        assert piece[0] != 'd' && piece[1] == 'o';
      }
    }
    assert piece != "float" by {
      if |piece| == 5 {
        assert i == 0 || i == 1 || i == 2;
        assert piece[0] == "boolean"[i] != 'f';
      }
    }
  }

  /** The words of one comma piece: `p.strip().split(' ')`. */
  function Words(piece: string): seq<string> {
    SplitOn(Strip(piece), ' ')
  }

  /** The comprehension over the comma pieces: blank pieces are skipped. */
  function PiecesToParams(pieces: seq<string>): seq<seq<string>>
    decreases |pieces|
  {
    if pieces == [] then [] else PieceParams(pieces[0]) + PiecesToParams(pieces[1..])
  }

  /** What one comma piece adds to `param_list`: its words, unless it is blank. */
  function PieceParams(piece: string): seq<seq<string>> {
    if Strip(piece) == [] then [] else [Words(piece)]
  }

  /** `param_list`: the words of every non-blank comma piece. */
  function ParamList(parameters: string): seq<seq<string>> {
    PiecesToParams(SplitOn(parameters, ','))
  }

  /** A piece that is not blank has a first word, and that word is not empty. */
  lemma FirstWordNotEmpty(piece: string)
    requires Strip(piece) != []
    ensures |Words(piece)| >= 1 && Words(piece)[0] != []
  {
    var s := Strip(piece);
    var w := SplitOn(s, ' ');
    assert s[0] != ' ';
    assert w == SplitOn(s, ' ');
    assert w[0] == [s[0]] + SplitOn(s[1..], ' ')[0];
  }

  /**
   * Every entry of `param_list` has a first word and it is never empty, so the
   * type word the loop lower-cases is never the empty string (which `in`
   * would find inside 'boolean').
   */
  lemma {:induction false} TypeWordsNotEmpty(pieces: seq<string>)
    ensures forall k :: 0 <= k < |PiecesToParams(pieces)| ==>
      |PiecesToParams(pieces)[k]| >= 1 && PiecesToParams(pieces)[k][0] != []
    decreases |pieces|
  {
    if pieces != [] {
      TypeWordsNotEmpty(pieces[1..]);
      var head := PieceParams(pieces[0]);
      var rest := PiecesToParams(pieces[1..]);
      assert PiecesToParams(pieces) == head + rest;
      PieceParamsWords(pieces[0]);
      forall k | 0 <= k < |head| ensures |head[k]| >= 1 && head[k][0] != [] {
        FirstWordNotEmpty(pieces[0]);
      }
    }
  }

  /** A blank piece adds nothing; any other adds exactly its words. */
  lemma PieceParamsWords(piece: string)
    ensures Strip(piece) == [] ==> PieceParams(piece) == []
    ensures Strip(piece) != [] ==> PieceParams(piece) == [Words(piece)]
  {
  }

  /**
   * One loop step's reading of a piece's words: a field when there are at least
   * two words, the name being the second word stripped and the type coming from
   * the first word lower-cased; words after the second are ignored.
   */
  function ParseField(param: seq<string>): (r: Option<(string, FieldType)>)
    ensures r.None? <==> |param| < 2
  {
    if |param| >= 2 then Some((Strip(param[1]), MapType(ToLower(param[0])))) else None
  }

  /**
   * Only the first two words of a piece count: the name is the second word
   * with no whitespace at its ends, and words after the second change nothing.
   */
  lemma ExtraWordsIgnored(param: seq<string>)
    requires |param| >= 2
    ensures ParseField(param) == ParseField(param[..2])
    ensures ParseField(param).Some? && Trimmed(ParseField(param).value.0)
    ensures ParseField(param).value.1 == MapType(ToLower(param[0]))
  {
  }

  /** A parsed entry: the field a piece declares, or nothing for a short piece. */
  type Entry = Option<(string, FieldType)>

  /** The entry declares a field called `name`. */
  predicate DeclaresName(entry: Entry, name: string) {
    entry.Some? && entry.value.0 == name
  }

  /** The entries of all pieces, in order. */
  function ParsedFields(params: seq<seq<string>>): (entries: seq<Entry>)
    ensures |entries| == |params|
    ensures forall k :: 0 <= k < |params| ==> entries[k] == ParseField(params[k])
  {
    seq(|params|, k requires 0 <= k < |params| => ParseField(params[k]))
  }

  /**
   * The `fields` dict: Python dicts keep keys in insertion order, so the table
   * is the key order plus the map from key to type.
   */
  datatype FieldTable = FieldTable(order: seq<string>, types: map<string, FieldType>)

  const EmptyTable := FieldTable([], map[])

  /** The order lists each key of the map exactly once. */
  ghost predicate WellFormed(t: FieldTable) {
    && (forall i, j :: 0 <= i < j < |t.order| ==> t.order[i] != t.order[j])
    && (forall n :: n in t.types <==> n in t.order)
  }

  /** `fields[name] = type`: a new key goes last, a known key keeps its place. */
  function Put(t: FieldTable, name: string, ty: FieldType): FieldTable {
    FieldTable(if name in t.types then t.order else t.order + [name], t.types[name := ty])
  }

  /** The table the loop has built after reading `entries`. */
  function Build(entries: seq<Entry>): FieldTable
    decreases |entries|
  {
    if entries == [] then EmptyTable
    else
      var t := Build(entries[..|entries| - 1]);
      match entries[|entries| - 1]
      case None => t
      case Some((name, ty)) => Put(t, name, ty)
  }

  /** The field table `_create_endpoint_model` builds from a parameter string. */
  function EndpointFields(parameters: string): FieldTable {
    Build(ParsedFields(ParamList(parameters)))
  }

  /** `_create_endpoint_model`: fills the ordered field table one piece at a time. */
  method CreateEndpointModel(parameters: string) returns (fields: FieldTable)
    ensures fields == EndpointFields(parameters)
    ensures WellFormed(fields)
  {
    var paramList := ParamList(parameters);
    ghost var entries := ParsedFields(paramList);
    var order: seq<string> := [];
    var types: map<string, FieldType> := map[];
    for i := 0 to |paramList|
      invariant FieldTable(order, types) == Build(entries[..i])
    {
      var param := paramList[i];
      assert entries[..i + 1][..i] == entries[..i];
      if |param| >= 2 {
        var paramName := Strip(param[1]);
        var paramType := ToLower(param[0]);
        var pythonType := MapType(paramType);
        if paramName !in types {
          order := order + [paramName];
        }
        types := types[paramName := pythonType];
      }
    }
    assert entries[..|paramList|] == entries;
    fields := FieldTable(order, types);
    BuildWellFormed(entries);
  }

  lemma PutWellFormed(t: FieldTable, name: string, ty: FieldType)
    requires WellFormed(t)
    ensures WellFormed(Put(t, name, ty))
  {
  }

  lemma {:induction false} BuildWellFormed(entries: seq<Entry>)
    ensures WellFormed(Build(entries))
    decreases |entries|
  {
    if entries != [] {
      var prefix := entries[..|entries| - 1];
      BuildWellFormed(prefix);
      match entries[|entries| - 1]
      case None =>
      case Some((name, ty)) => PutWellFormed(Build(prefix), name, ty);
    }
  }

  /** A name is a field exactly when some entry declares it. */
  lemma {:induction false} FieldNames(entries: seq<Entry>, name: string)
    ensures name in Build(entries).types <==>
      exists i :: 0 <= i < |entries| && DeclaresName(entries[i], name)
    decreases |entries|
  {
    if entries != [] {
      var prefix := entries[..|entries| - 1];
      FieldNames(prefix, name);
      if exists i :: 0 <= i < |entries| && DeclaresName(entries[i], name) {
        var i :| 0 <= i < |entries| && DeclaresName(entries[i], name);
        if i < |prefix| {
          assert DeclaresName(prefix[i], name);
        }
      }
      if exists i :: 0 <= i < |prefix| && DeclaresName(prefix[i], name) {
        var i :| 0 <= i < |prefix| && DeclaresName(prefix[i], name);
        assert DeclaresName(entries[i], name);
      }
    }
  }

  /**
   * A repeated name takes the type of its last declaration: the type stored
   * for a name is the one from the last entry that declares it.
   */
  lemma {:induction false} LastTypeWins(entries: seq<Entry>, i: nat, name: string, ty: FieldType)
    requires i < |entries| && entries[i] == Some((name, ty))
    requires forall j :: i < j < |entries| ==> !DeclaresName(entries[j], name)
    ensures name in Build(entries).types && Build(entries).types[name] == ty
    decreases |entries|
  {
    var prefix := entries[..|entries| - 1];
    if i < |entries| - 1 {
      assert prefix[i] == entries[i];
      forall j | i < j < |prefix| ensures !DeclaresName(prefix[j], name) {
        assert prefix[j] == entries[j];
      }
      LastTypeWins(prefix, i, name, ty);
    }
  }

  /** The position of `x` in a sequence that holds it. */
  function IndexOf(s: seq<string>, x: string): (k: nat)
    requires x in s
    ensures k < |s| && s[k] == x
    ensures forall j :: 0 <= j < k ==> s[j] != x
  {
    if s[0] == x then 0 else 1 + IndexOf(s[1..], x)
  }

  lemma {:induction false} IndexOfAppend(s: seq<string>, y: string, x: string)
    requires x in s
    ensures x in s + [y] && IndexOf(s + [y], x) == IndexOf(s, x)
    decreases |s|
  {
    if s[0] != x {
      assert (s + [y])[1..] == s[1..] + [y];
      IndexOfAppend(s[1..], y, x);
    }
  }

  /** `i` is the first entry that declares `name`. */
  predicate FirstDeclaration(entries: seq<Entry>, i: nat, name: string) {
    i < |entries| && DeclaresName(entries[i], name) &&
    forall k :: 0 <= k < i ==> !DeclaresName(entries[k], name)
  }

  /**
   * Fields keep the order of their first declaration: a name first declared
   * before another comes before it in the table, whatever is redeclared later.
   */
  lemma {:induction false} FirstDeclarationOrder(entries: seq<Entry>, i: nat, j: nat, a: string, b: string)
    requires i < j
    requires FirstDeclaration(entries, i, a) && FirstDeclaration(entries, j, b)
    ensures a in Build(entries).order && b in Build(entries).order
    ensures IndexOf(Build(entries).order, a) < IndexOf(Build(entries).order, b)
    decreases |entries|
  {
    var prefix := entries[..|entries| - 1];
    var t := Build(prefix);
    BuildWellFormed(prefix);
    assert DeclaresName(prefix[i], a);
    FieldNames(prefix, a);
    if j == |entries| - 1 {
      FieldNames(prefix, b);
      assert forall k :: 0 <= k < |prefix| ==> prefix[k] == entries[k];
      assert b !in t.types;
      assert Build(entries) == Put(t, b, entries[j].value.1);
      IndexOfAppend(t.order, b, a);
      assert IndexOf(t.order + [b], b) == |t.order| by {
        assert (t.order + [b])[|t.order|] == b;
      }
    } else {
      assert FirstDeclaration(prefix, i, a) && FirstDeclaration(prefix, j, b);
      FirstDeclarationOrder(prefix, i, j, a, b);
      match entries[|entries| - 1]
      case None =>
      case Some((name, ty)) =>
        if name !in t.types {
          IndexOfAppend(t.order, name, a);
          IndexOfAppend(t.order, name, b);
        }
    }
  }

  /** An entry for a piece with fewer than two words adds no field. */
  lemma {:induction false} ShortParamIgnored(before: seq<Entry>, after: seq<Entry>)
    ensures Build(before + [None] + after) == Build(before + after)
    decreases |after|
  {
    if after == [] {
      assert (before + [None] + after)[..|before|] == before;
      assert before + after == before;
    } else {
      var rest := after[..|after| - 1];
      assert (before + [None] + after)[..|before| + |after|] == before + [None] + rest;
      assert (before + after)[..|before| + |after| - 1] == before + rest;
      ShortParamIgnored(before, rest);
    }
  }

  /** A comma piece that is blank once stripped is skipped. */
  lemma {:induction false} BlankPieceIgnored(before: seq<string>, piece: string, after: seq<string>)
    requires Strip(piece) == []
    ensures PiecesToParams(before + [piece] + after) == PiecesToParams(before + after)
    decreases |before|
  {
    var pieces := before + [piece] + after;
    assert PieceParams(piece) == [];
    if before == [] {
      assert pieces[0] == piece && pieces[1..] == after;
      assert before + after == after;
    } else {
      assert pieces[0] == before[0] && pieces[1..] == before[1..] + [piece] + after;
      assert (before + after)[0] == before[0] && (before + after)[1..] == before[1..] + after;
      BlankPieceIgnored(before[1..], piece, after);
    }
  }

  lemma {:induction false} SplitOfSpace(s: string, sep: char)
    requires AllSpace(s) && !IsSpace(sep)
    ensures forall k :: 0 <= k < |SplitOn(s, sep)| ==> AllSpace(SplitOn(s, sep)[k])
    decreases |s|
  {
    if s != [] {
      SplitOfSpace(s[1..], sep);
    }
  }

  lemma {:induction false} BlankPieces(pieces: seq<string>)
    requires forall k :: 0 <= k < |pieces| ==> AllSpace(pieces[k])
    ensures PiecesToParams(pieces) == []
    decreases |pieces|
  {
    if pieces != [] {
      StripAllSpace(pieces[0]);
      BlankPieces(pieces[1..]);
    }
  }

  /** An empty or whitespace-only parameter string yields no fields. */
  lemma BlankParametersNoFields(parameters: string)
    requires AllSpace(parameters)
    ensures ParamList(parameters) == []
    ensures EndpointFields(parameters) == EmptyTable
  {
    SplitOfSpace(parameters, ',');
    BlankPieces(SplitOn(parameters, ','));
  }

  /** The keyword a field type is written with in a parameter string. */
  function TypeKeyword(t: FieldType): string {
    match t
    case Str => "varchar"
    case Int => "integer"
    case Float => "double"
    case Bool => "boolean"
  }

  /** A field name that survives being written out: no comma, no whitespace. */
  predicate PlainName(name: string) {
    name != [] && ',' !in name && forall k :: 0 <= k < |name| ==> !IsSpace(name[k])
  }

  /** The table written back as a parameter string: "integer a, varchar b". */
  function RenderParameters(t: FieldTable): string
    requires WellFormed(t)
  {
    Join(Declarations(t), ", ")
  }

  function Declarations(t: FieldTable): seq<string>
    requires WellFormed(t)
  {
    seq(|t.order|, k requires 0 <= k < |t.order| => TypeKeyword(t.types[t.order[k]]) + " " + t.order[k])
  }

  /** "varchar" is no piece of "boolean", so it maps to Str. */
  lemma VarcharMapsToStr()
    ensures MapType("varchar") == Str
  {
    assert !("varchar" <= "boolean") by { assert "varchar"[0] != "boolean"[0]; }
    assert !Contains("boolean"[1..], "varchar");
  }

  lemma KeywordMapsBack(t: FieldType)
    ensures MapType(ToLower(TypeKeyword(t))) == t
  {
    match t
    case Str =>
      assert ToLower("varchar") == "varchar";
      VarcharMapsToStr();
    case Int =>
      assert ToLower("integer") == "integer";
    case Float =>
      assert ToLower("double") == "double";
    case Bool =>
      assert ToLower("boolean") == "boolean";
      assert OccursAt("boolean", "boolean", 0);
  }

  lemma KeywordPlain(t: FieldType)
    ensures PlainName(TypeKeyword(t))
  {
  }

  /** Two plain words joined by one space read back as those two words. */
  lemma TwoWords(a: string, b: string)
    requires PlainName(a) && PlainName(b)
    ensures Strip(a + " " + b) == a + " " + b
    ensures Words(a + " " + b) == [a, b]
  {
    var d := a + " " + b;
    assert d[0] == a[0] && d[|d| - 1] == b[|b| - 1];
    StripTrimmed(d);
    assert d == Join([a, b], [' ']);
    assert ' ' !in a && ' ' !in b;
    JoinThenSplit([a, b], ' ');
  }

  /**
   * Words are split on single spaces, not on runs of whitespace: with two
   * spaces between type and name the second word is empty, so the piece
   * declares a field with the empty name and the real name is ignored.
   */
  lemma DoubleSpaceDeclaresEmptyName(ty: string, name: string)
    requires PlainName(ty) && PlainName(name)
    ensures ParseField(Words(ty + "  " + name)) == Some(([], MapType(ToLower(ty))))
  {
    var d := ty + "  " + name;
    assert d[0] == ty[0] && d[|d| - 1] == name[|name| - 1];
    StripTrimmed(d);
    assert Join([[], name], [' ']) == [] + [' '] + name;
    assert d == Join([ty, [], name], [' ']);
    assert ' ' !in ty && ' ' !in name;
    JoinThenSplit([ty, [], name], ' ');
    assert Words(d) == [ty, [], name];
    StripAllSpace([]);
  }

  lemma {:induction false} NonBlankPieces(pieces: seq<string>)
    requires forall k :: 0 <= k < |pieces| ==> Strip(pieces[k]) != []
    ensures |PiecesToParams(pieces)| == |pieces|
    ensures forall k :: 0 <= k < |pieces| ==> PiecesToParams(pieces)[k] == Words(pieces[k])
    decreases |pieces|
  {
    if pieces != [] {
      NonBlankPieces(pieces[1..]);
      PieceParamsWords(pieces[0]);
      var rest := PiecesToParams(pieces[1..]);
      assert PiecesToParams(pieces) == PieceParams(pieces[0]) + rest;
      assert PiecesToParams(pieces) == [Words(pieces[0])] + rest;
      forall k | 1 <= k < |pieces| ensures PiecesToParams(pieces)[k] == Words(pieces[k]) {
        assert PiecesToParams(pieces)[k] == rest[k - 1];
        assert pieces[1..][k - 1] == pieces[k];
      }
    }
  }

  /** The table's own fields, one entry per key, in order. */
  function TableEntries(t: FieldTable): seq<Entry>
    requires WellFormed(t)
  {
    EntriesOf(t.types, t.order)
  }

  /** One entry per name, with its type from `types`. */
  function EntriesOf(types: map<string, FieldType>, names: seq<string>): seq<Entry>
    requires forall k :: 0 <= k < |names| ==> names[k] in types
  {
    seq(|names|, k requires 0 <= k < |names| => Some((names[k], types[names[k]])))
  }

  /** `types` cut down to `names`, entered in order. */
  function Restrict(types: map<string, FieldType>, names: seq<string>): map<string, FieldType>
    requires forall k :: 0 <= k < |names| ==> names[k] in types
    decreases |names|
  {
    if names == [] then map[]
    else Restrict(types, names[..|names| - 1])[names[|names| - 1] := types[names[|names| - 1]]]
  }

  lemma {:induction false} RestrictKeys(types: map<string, FieldType>, names: seq<string>)
    requires forall k :: 0 <= k < |names| ==> names[k] in types
    ensures forall m :: m in Restrict(types, names) <==> m in names
    ensures forall m :: m in Restrict(types, names) ==> Restrict(types, names)[m] == types[m]
    decreases |names|
  {
    if names != [] {
      var init := names[..|names| - 1];
      RestrictKeys(types, init);
      assert names == init + [names[|names| - 1]];
    }
  }

  /** Building from distinct names with their types enters each name once, in order. */
  lemma {:induction false} BuildDistinct(types: map<string, FieldType>, names: seq<string>)
    requires forall k :: 0 <= k < |names| ==> names[k] in types
    requires forall i, j :: 0 <= i < j < |names| ==> names[i] != names[j]
    ensures Build(EntriesOf(types, names)) == FieldTable(names, Restrict(types, names))
    decreases |names|
  {
    if names != [] {
      var n := |names|;
      var init := names[..n - 1];
      var name := names[n - 1];
      var entries := EntriesOf(types, names);
      assert entries[..n - 1] == EntriesOf(types, init);
      assert entries[n - 1] == Some((name, types[name]));
      BuildDistinct(types, init);
      var prev := Build(EntriesOf(types, init));
      assert Build(entries) == Put(prev, name, types[name]);
      LastIsNew(names, n);
      RestrictKeys(types, init);
      assert name !in prev.types;
      assert Put(prev, name, types[name]) == FieldTable(init + [name], Restrict(types, init)[name := types[name]]);
      assert Restrict(types, names) == Restrict(types, init)[name := types[name]];
      assert names == init + [name];
    }
  }

  lemma LastIsNew(order: seq<string>, n: nat)
    requires 0 < n <= |order|
    requires forall i, j :: 0 <= i < j < |order| ==> order[i] != order[j]
    ensures order[n - 1] !in order[..n - 1]
  {
    var before := order[..n - 1];
    forall k | 0 <= k < |before| ensures before[k] != order[n - 1] {
      assert order[k] != order[n - 1];
    }
  }

  /** Each written declaration reads back as the entry of its field. */
  lemma DeclarationEntry(t: FieldTable, k: nat)
    requires WellFormed(t) && k < |t.order| && PlainName(t.order[k])
    ensures Strip(Declarations(t)[k]) == Declarations(t)[k] != []
    ensures ParseField(Words(Declarations(t)[k])) == TableEntries(t)[k]
  {
    var name := t.order[k];
    var ty := t.types[name];
    KeywordPlain(ty);
    TwoWords(TypeKeyword(ty), name);
    StripTrimmed(name);
    KeywordMapsBack(ty);
  }

  /** The comma pieces of a written table are its declarations, none blank. */
  lemma RenderedParams(t: FieldTable)
    requires WellFormed(t) && |t.order| > 0
    requires forall k :: 0 <= k < |t.order| ==> PlainName(t.order[k])
    ensures |ParamList(RenderParameters(t))| == |t.order|
    ensures forall k :: 0 <= k < |t.order| ==> ParamList(RenderParameters(t))[k] == Words(Declarations(t)[k])
  {
    var decls := Declarations(t);
    forall k | 0 <= k < |decls| ensures ',' !in decls[k] && Trimmed(decls[k]) {
      KeywordPlain(t.types[t.order[k]]);
      assert decls[k] == TypeKeyword(t.types[t.order[k]]) + " " + t.order[k];
    }
    CommaListRoundTrip(decls);
    var pieces := SplitOn(RenderParameters(t), ',');
    forall k | 0 <= k < |pieces| ensures Strip(pieces[k]) == decls[k] && Strip(pieces[k]) != [] {
      assert StripAll(pieces)[k] == decls[k];
      DeclarationEntry(t, k);
    }
    NonBlankPieces(pieces);
    forall k | 0 <= k < |t.order| ensures Words(pieces[k]) == Words(decls[k]) {
      assert Strip(pieces[k]) == decls[k] == Strip(decls[k]) by { DeclarationEntry(t, k); }
    }
  }

  /** The entries parsed from a written table are the table's own entries. */
  lemma RenderedEntries(t: FieldTable)
    requires WellFormed(t)
    requires forall k :: 0 <= k < |t.order| ==> PlainName(t.order[k])
    ensures ParsedFields(ParamList(RenderParameters(t))) == TableEntries(t)
  {
    var params := ParamList(RenderParameters(t));
    if |t.order| == 0 {
      assert RenderParameters(t) == [];
      assert params == [];
    } else {
      RenderedParams(t);
      forall k | 0 <= k < |params| ensures ParsedFields(params)[k] == TableEntries(t)[k] {
        DeclarationEntry(t, k);
      }
    }
  }

  /** Building from a table's own entries gives the table back. */
  lemma Rebuild(t: FieldTable)
    requires WellFormed(t)
    ensures Build(TableEntries(t)) == t
  {
    BuildDistinct(t.types, t.order);
    RestrictKeys(t.types, t.order);
    var r := Restrict(t.types, t.order);
    assert r.Keys == t.types.Keys;
    assert r == t.types;
  }

  /**
   * Writing a table out as "type name, type name, ..." and parsing that string
   * gives the same table back: same names, same order, same types.
   */
  lemma RenderThenParse(t: FieldTable)
    requires WellFormed(t)
    requires forall k :: 0 <= k < |t.order| ==> PlainName(t.order[k])
    ensures EndpointFields(RenderParameters(t)) == t
  {
    RenderedEntries(t);
    Rebuild(t);
  }

  // ---------------------------------------------------------------------
  // The handler: values to call text, execution outcome to response.
  // ---------------------------------------------------------------------

  /** A validated request value, as the request model holds it. */
  datatype Value = StrValue(s: string) | IntValue(i: int) | FloatValue(repr: string) | BoolValue(b: bool)

  function DigitChar(d: nat): char
    requires d < 10
  {
    "0123456789"[d]
  }

  /** The decimal digits of a natural number, most significant first. */
  function NatText(n: nat): (r: string)
    ensures |r| >= 1
    ensures forall k :: 0 <= k < |r| ==> '0' <= r[k] <= '9'
  {
    if n < 10 then [DigitChar(n)] else NatText(n / 10) + [DigitChar(n % 10)]
  }

  /** `str(i)` for a Python int: decimal digits, with a minus sign when negative. */
  function IntText(i: int): string {
    if i < 0 then "-" + NatText(-i) else NatText(i)
  }

  /** The number a run of decimal digits stands for. */
  function DigitsValue(s: string): int
    decreases |s|
  {
    if s == [] then 0 else DigitsValue(s[..|s| - 1]) * 10 + (s[|s| - 1] as int - '0' as int)
  }

  /** `int(s)` for decimal text with an optional minus sign. */
  function ParseInt(s: string): int {
    if s != [] && s[0] == '-' then -DigitsValue(s[1..]) else DigitsValue(s)
  }

  lemma {:induction false} NatTextRoundTrip(n: nat)
    ensures DigitsValue(NatText(n)) == n
    decreases n
  {
    if n >= 10 {
      NatTextRoundTrip(n / 10);
      var s := NatText(n);
      assert s[..|s| - 1] == NatText(n / 10);
      assert s[|s| - 1] as int - '0' as int == n % 10;
    } else {
      assert NatText(n)[0] as int - '0' as int == n;
    }
  }

  lemma ParseSigned(digits: string)
    ensures ParseInt("-" + digits) == -DigitsValue(digits)
  {
    assert ("-" + digits)[1..] == digits;
  }

  lemma ParseUnsigned(digits: string)
    requires digits != [] && '0' <= digits[0] <= '9'
    ensures ParseInt(digits) == DigitsValue(digits)
  {
  }

  /** `int(str(i)) == i`: the text of an int value reads back as that int. */
  lemma IntTextRoundTrip(i: int)
    ensures ParseInt(IntText(i)) == i
  {
    var n: nat := if i < 0 then -i else i;
    var digits := NatText(n);
    NatTextRoundTrip(n);
    if i < 0 {
      assert IntText(i) == "-" + digits;
      ParseSigned(digits);
    } else {
      assert IntText(i) == digits;
      ParseUnsigned(digits);
    }
  }

  /** `str(v)`: the text a value is spliced into the call as. */
  function ValueText(v: Value): string {
    match v
    case StrValue(s) => s
    case IntValue(i) => IntText(i)
    case FloatValue(repr) => repr
    case BoolValue(b) => if b then "True" else "False"
  }

  lemma DigitsPlain(sign: string, digits: string)
    requires sign == [] || sign == "-"
    requires digits != [] && forall k :: 0 <= k < |digits| ==> '0' <= digits[k] <= '9'
    ensures var s := sign + digits; s != [] && ',' !in s && Trimmed(s)
  {
    var s := sign + digits;
    assert forall k :: 0 <= k < |s| ==> s[k] == '-' || '0' <= s[k] <= '9';
    assert s[|s| - 1] == digits[|digits| - 1];
  }

  /** Decimal text holds no comma and starts and ends with a digit or a sign. */
  lemma IntTextPlain(i: int)
    ensures IntText(i) != [] && ',' !in IntText(i) && Trimmed(IntText(i))
  {
    if i < 0 {
      DigitsPlain("-", NatText(-i));
    } else {
      DigitsPlain([], NatText(i));
      assert [] + NatText(i) == NatText(i);
    }
  }

  /** The text of an int or a bool has no comma and no whitespace at its ends. */
  lemma ScalarTextPlain(v: Value)
    requires v.IntValue? || v.BoolValue?
    ensures ValueText(v) != [] && ',' !in ValueText(v) && Trimmed(ValueText(v))
  {
    if v.IntValue? {
      IntTextPlain(v.i);
    } else {
      assert ValueText(v) == "True" || ValueText(v) == "False";
    }
  }

  /**
   * The call text `handler` sends: `SELECT name(v1, v2, ...)` with the value
   * texts joined by ", "; `None` is a request that carried no model.
   */
  function CallQuery(macroName: string, args: Option<seq<string>>): string {
    match args
    case None => "SELECT " + macroName + "()"
    case Some(texts) => "SELECT " + macroName + "(" + Join(texts, ", ") + ")"
  }

  /** `params.dict().values()` as text: the body's values in field order. */
  function ArgumentTexts(fields: FieldTable, body: map<string, Value>): seq<string>
    requires forall k :: 0 <= k < |fields.order| ==> fields.order[k] in body
  {
    seq(|fields.order|, k requires 0 <= k < |fields.order| => ValueText(body[fields.order[k]]))
  }

  /** The call text for a request whose body, if any, holds every field. */
  function HandlerQuery(macroName: string, fields: FieldTable, body: Option<map<string, Value>>): string
    requires body.Some? ==> forall k :: 0 <= k < |fields.order| ==> fields.order[k] in body.value
  {
    CallQuery(macroName, if body.Some? then Some(ArgumentTexts(fields, body.value)) else None)
  }

  /** A call with no values is `SELECT name()`, whether or not a model came in. */
  lemma EmptyCall(macroName: string)
    ensures CallQuery(macroName, None) == "SELECT " + macroName + "()"
    ensures CallQuery(macroName, Some([])) == CallQuery(macroName, None)
  {
  }

  /**
   * The argument list of a call reads back, piece by comma piece, as the value
   * texts in the order given, when no text holds a comma or edge whitespace.
   */
  lemma CallArgumentsReadBack(macroName: string, texts: seq<string>)
    requires |texts| >= 1
    requires forall k :: 0 <= k < |texts| ==> ',' !in texts[k] && Trimmed(texts[k])
    ensures var q := CallQuery(macroName, Some(texts));
      var head := "SELECT " + macroName + "(";
      && |head| < |q| && q[..|head|] == head && q[|q| - 1] == ')'
      && StripAll(SplitOn(q[|head|..|q| - 1], ',')) == texts
  {
    var q := CallQuery(macroName, Some(texts));
    var head := "SELECT " + macroName + "(";
    assert q == head + Join(texts, ", ") + ")";
    assert q[|head|..|q| - 1] == Join(texts, ", ");
    CommaListRoundTrip(texts);
  }

  /**
   * Values reach the macro in field order: the k-th argument of the call text
   * is the text of the value of the k-th field.
   */
  lemma HandlerArgumentsInFieldOrder(macroName: string, fields: FieldTable, body: map<string, Value>)
    requires |fields.order| >= 1
    requires forall k :: 0 <= k < |fields.order| ==> fields.order[k] in body
    requires forall k :: 0 <= k < |fields.order| ==>
      ',' !in ValueText(body[fields.order[k]]) && Trimmed(ValueText(body[fields.order[k]]))
    ensures var q := HandlerQuery(macroName, fields, Some(body));
      var head := "SELECT " + macroName + "(";
      var args := StripAll(SplitOn(q[|head|..|q| - 1], ','));
      && |head| < |q| && q[..|head|] == head && q[|q| - 1] == ')'
      && |args| == |fields.order|
      && forall k :: 0 <= k < |args| ==> args[k] == ValueText(body[fields.order[k]])
  {
    CallArgumentsReadBack(macroName, ArgumentTexts(fields, body));
  }

  /** What executing the call gave: the result rows, or the error's message. */
  datatype Outcome<Row> = Rows(rows: seq<Row>) | Failed(message: string)

  /** The handler's answer: `{"result": rows}`, or an HTTP error with a detail. */
  datatype Response<Row> = Result(result: seq<Row>) | HttpError(status: nat, detail: string)

  const ExecutionErrorPrefix := "Error executing macro: "

  /**
   * Rows come back as the result unchanged; any execution failure becomes a
   * 500 whose detail names it as a macro execution error and carries the
   * underlying message verbatim.
   */
  function Respond<Row>(outcome: Outcome<Row>): (r: Response<Row>)
    ensures r.Result? <==> outcome.Rows?
    ensures r.Result? ==> r.result == outcome.rows
    ensures r.HttpError? ==>
      && r.status == 500
      && |ExecutionErrorPrefix| <= |r.detail|
      && r.detail[..|ExecutionErrorPrefix|] == ExecutionErrorPrefix
      && r.detail[|ExecutionErrorPrefix|..] == outcome.message
  {
    match outcome
    case Rows(rows) => Result(rows)
    case Failed(message) => HttpError(500, ExecutionErrorPrefix + message)
  }

  // ---------------------------------------------------------------------
  // create_app: one route per macro.
  // ---------------------------------------------------------------------

  datatype HttpMethod = Get | Post

  /** One row of the catalog's macro listing: name, parameters, return type, body. */
  datatype MacroInfo = MacroInfo(name: string, parameters: string, returnType: string, definition: string)

  /** A registered endpoint: its method and path, and what its handler is bound to. */
  datatype Route = Route(verb: HttpMethod, path: string, macroName: string, model: Option<FieldTable>)

  /** `param_model`: a field table when the parameter string is not empty. */
  function ParamModel(m: MacroInfo): Option<FieldTable> {
    if m.parameters != [] then Some(EndpointFields(m.parameters)) else None
  }

  /** The route one loop step registers for a macro. */
  function RouteFor(m: MacroInfo): Route {
    var model := ParamModel(m);
    Route(if model.Some? then Post else Get, "/macro/" + m.name, m.name, model)
  }

  function RoutesFor(macros: seq<MacroInfo>): seq<Route> {
    seq(|macros|, i requires 0 <= i < |macros| => RouteFor(macros[i]))
  }

  /**
   * GET exactly when the parameter string is empty, POST otherwise, always at
   * `/macro/<name>`; a POST route carries the parsed field table.
   */
  lemma RouteChoice(m: MacroInfo)
    ensures RouteFor(m).verb == Get <==> m.parameters == []
    ensures RouteFor(m).path == "/macro/" + m.name && RouteFor(m).macroName == m.name
    ensures RouteFor(m).verb == Post ==> RouteFor(m).model == Some(EndpointFields(m.parameters))
    ensures RouteFor(m).verb == Get ==> RouteFor(m).model == None
  {
  }

  /**
   * A parameter string of only whitespace is not empty, so the macro still gets
   * a POST route, with a model that has no fields.
   */
  lemma BlankParametersArePost(m: MacroInfo)
    requires m.parameters != [] && AllSpace(m.parameters)
    ensures RouteFor(m) == Route(Post, "/macro/" + m.name, m.name, Some(EmptyTable))
  {
    BlankParametersNoFields(m.parameters);
  }

  /** The first route registered for a method and a path, if any. */
  function Lookup(routes: seq<Route>, verb: HttpMethod, path: string): Option<Route> {
    if routes == [] then None
    else if routes[0].verb == verb && routes[0].path == path then Some(routes[0])
    else Lookup(routes[1..], verb, path)
  }

  /**
   * Each handler is bound to its own macro: with distinct macro names, the route
   * found for the i-th macro's method and path is the one built for that macro.
   */
  lemma {:induction false} EachRouteDispatchesToItsMacro(macros: seq<MacroInfo>, i: nat)
    requires i < |macros|
    requires forall a, b :: 0 <= a < b < |macros| ==> macros[a].name != macros[b].name
    ensures Lookup(RoutesFor(macros), RouteFor(macros[i]).verb, "/macro/" + macros[i].name)
      == Some(RouteFor(macros[i]))
    ensures RouteFor(macros[i]).macroName == macros[i].name
    decreases i
  {
    var routes := RoutesFor(macros);
    var path := "/macro/" + macros[i].name;
    if i > 0 {
      assert routes[0].path != path by {
        assert macros[0].name != macros[i].name;
        assert routes[0].path == "/macro/" + macros[0].name;
        assert routes[0].path[7..] == macros[0].name;
        assert path[7..] == macros[i].name;
      }
      assert RoutesFor(macros[1..]) == routes[1..];
      EachRouteDispatchesToItsMacro(macros[1..], i - 1);
      assert macros[1..][i - 1] == macros[i];
    }
  }

  /** The application object: the routes registered on it, in order. */
  class App {
    var routes: seq<Route>

    constructor ()
      ensures routes == []
    {
      routes := [];
    }

    /** `app.get(path)(endpoint)` or `app.post(path)(endpoint)`. */
    method Register(route: Route)
      modifies this
      ensures routes == old(routes) + [route]
    {
      routes := routes + [route];
    }
  }

  /** `create_app`: registers one route per macro, in catalog order. */
  method CreateApp(macros: seq<MacroInfo>) returns (app: App)
    ensures fresh(app)
    ensures app.routes == RoutesFor(macros)
  {
    app := new App();
    for i := 0 to |macros|
      invariant app.routes == RoutesFor(macros[..i])
    {
      var m := macros[i];
      var paramModel: Option<FieldTable> := None;
      if m.parameters != [] {
        var fields := CreateEndpointModel(m.parameters);
        paramModel := Some(fields);
      }
      assert paramModel == ParamModel(m);
      var path := "/macro/" + m.name;
      var route := if paramModel.Some? then Route(Post, path, m.name, paramModel) else Route(Get, path, m.name, paramModel);
      assert route == RouteFor(m);
      RoutesForSnoc(macros, i);
      app.Register(route);
    }
    assert macros[..|macros|] == macros;
  }

  lemma RoutesForSnoc(macros: seq<MacroInfo>, i: nat)
    requires i < |macros|
    ensures RoutesFor(macros[..i + 1]) == RoutesFor(macros[..i]) + [RouteFor(macros[i])]
  {
  }
}
