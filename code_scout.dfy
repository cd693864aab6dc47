/**
  `src/agents/code_scout.py`: the symbol scanner. A `SymbolVisitor` walks the
  syntax tree of one file and records, per symbol name, where it is defined,
  imported, called or referenced; `CodeScout` merges the per-file tables,
  answers look-ups, builds the dependency graph, summarises the impact of a
  change, and parses the output of `grep -rn` and `git blame --porcelain`.

  `ast.parse` is not modelled: a file arrives as its text and its tree (the
  tree `None` stands for the `SyntaxError` branch). The output of `grep` and
  `git` is a parameter (`None` for the exception branches).
*/
module CodeScout {
  import opened Wrappers
  import opened Strings

  predicate Distinct<T(==)>(s: seq<T>) {
    forall i, j :: 0 <= i < j < |s| ==> s[i] != s[j]
  }

  // ---------------------------------------------------------------------
  // Usages and the syntax tree
  // ---------------------------------------------------------------------

  /** `usage_type`: 'import', 'call', 'definition' or 'reference'. */
  datatype UsageKind = Import | Call | Definition | Reference

  /** `SymbolUsage` */
  datatype Usage = Usage(filePath: string, lineNumber: int, column: int, context: string, kind: UsageKind)

  /** `usage_type in ['import', 'call', 'reference']` */
  predicate IsDependencyKind(k: UsageKind) {
    k == Import || k == Call || k == Reference
  }

  /** `ast` line numbers start at 1. */
  type LineNo = n: int | n >= 1 witness 1

  datatype ExprContext = Load | Store | Del

  /** What `node.func` of a call is: an `ast.Name`, an `ast.Attribute`, or anything else. */
  datatype Callee = NameCallee(id: string) | AttributeCallee(attr: string) | OtherCallee

  /** The node classes the visitor has a `visit_*` method for; every other
      class (including `AsyncFunctionDef`) is `OtherNode`. */
  datatype NodeKind =
    | FunctionDef(name: string)
    | ClassDef(name: string)
    | ImportStmt(names: seq<string>)
    | ImportFromStmt(moduleName: Option<string>, names: seq<string>)
    | CallExpr(func: Callee)
    | NameExpr(id: string, ctx: ExprContext)
    | OtherNode

  /** A syntax tree node: its class, its `lineno` and `col_offset` when it has
      them, and the child nodes `generic_visit` reaches, in field order (for
      a call, the `func` expression is among them). */
  datatype Node = Node(kind: NodeKind, lineno: Option<LineNo>, colOffset: Option<int>, children: seq<Node>)

  // ---------------------------------------------------------------------
  // What the visitor records
  // ---------------------------------------------------------------------

  /** The context of a usage on line `lineno`: that source line stripped, or
      `""` past the last line. */
  function ContextAt(lines: seq<string>, lineno: LineNo): string {
    var lineIdx := lineno - 1;
    Strip(if lineIdx < |lines| then lines[lineIdx] else "")
  }

  /** The `SymbolUsage` `_add_usage` builds for a node that has a `lineno`. */
  function UsageAt(filePath: string, lines: seq<string>, n: Node, kind: UsageKind): Usage
    requires n.lineno.Some?
  {
    Usage(filePath, n.lineno.value, n.colOffset.GetOr(0), ContextAt(lines, n.lineno.value), kind)
  }

  function Tagged(names: seq<string>, kind: UsageKind): (r: seq<(string, UsageKind)>)
    ensures |r| == |names|
    ensures forall i :: 0 <= i < |names| ==> r[i] == (names[i], kind)
  {
    seq(|names|, i requires 0 <= i < |names| => (names[i], kind))
  }

  /** The (symbol, usage type) pairs the `visit_*` method of a node passes to `_add_usage`. */
  function OwnEvents(n: Node): seq<(string, UsageKind)> {
    match n.kind
    case FunctionDef(name) => [(name, Definition)]
    case ClassDef(name) => [(name, Definition)]
    case ImportStmt(names) => Tagged(names, Import)
    case ImportFromStmt(moduleName, names) =>
      if moduleName.Some? && moduleName.value != "" then Tagged(names, Import) else []
    case CallExpr(NameCallee(id)) => [(id, Call)]
    case CallExpr(AttributeCallee(attr)) => [(attr, Call)]
    case CallExpr(OtherCallee) => []
    case NameExpr(id, ctx) => if ctx == Load || ctx == Store then [(id, Reference)] else []
    case OtherNode => []
  }

  /** `_add_usage` for each pair: nothing when the node has no `lineno`. */
  function Stamp(filePath: string, lines: seq<string>, n: Node, evs: seq<(string, UsageKind)>): seq<(string, Usage)> {
    if n.lineno.None? then []
    else seq(|evs|, i requires 0 <= i < |evs| => (evs[i].0, UsageAt(filePath, lines, n, evs[i].1)))
  }

  function OwnUsages(filePath: string, lines: seq<string>, n: Node): seq<(string, Usage)> {
    Stamp(filePath, lines, n, OwnEvents(n))
  }

  /** Every usage recorded while visiting `n`, in the order `_add_usage` is called. */
  function Collect(filePath: string, lines: seq<string>, n: Node): seq<(string, Usage)>
    decreases n
  {
    OwnUsages(filePath, lines, n) + CollectAll(filePath, lines, n.children)
  }

  function CollectAll(filePath: string, lines: seq<string>, cs: seq<Node>): seq<(string, Usage)>
    decreases cs
  {
    if cs == [] then []
    else CollectAll(filePath, lines, cs[..|cs| - 1]) + Collect(filePath, lines, cs[|cs| - 1])
  }

  /** The usage types a node reports a symbol under, stated per usage type. */
  predicate Reports(m: Node, s: string, k: UsageKind) {
    match k
    case Definition => m.kind == FunctionDef(s) || m.kind == ClassDef(s)
    case Import =>
      (m.kind.ImportStmt? && s in m.kind.names) ||
      (m.kind.ImportFromStmt? && m.kind.moduleName.Some? && m.kind.moduleName.value != "" && s in m.kind.names)
    case Call => m.kind == CallExpr(NameCallee(s)) || m.kind == CallExpr(AttributeCallee(s))
    case Reference => m.kind == NameExpr(s, Load) || m.kind == NameExpr(s, Store)
  }

  lemma TaggedMember(names: seq<string>, kind: UsageKind, s: string, k: UsageKind)
    ensures (s, k) in Tagged(names, kind) <==> s in names && k == kind
  {
    var r := Tagged(names, kind);
    if s in names && k == kind {
      var i :| 0 <= i < |names| && names[i] == s;
      assert r[i] == (s, k);
    }
  }

  lemma OwnEventsReports(m: Node, s: string, k: UsageKind)
    ensures (s, k) in OwnEvents(m) <==> Reports(m, s, k)
  {
    match m.kind
    case ImportStmt(names) => TaggedMember(names, Import, s, k);
    case ImportFromStmt(moduleName, names) => TaggedMember(names, Import, s, k);
    case _ =>
  }

  /** A node's own usages: one per symbol its `visit_*` method reports, all on
      the node's line, none for a node without a `lineno`. */
  lemma NodeUsages(filePath: string, lines: seq<string>, m: Node, s: string, u: Usage)
    ensures (s, u) in OwnUsages(filePath, lines, m) <==>
      m.lineno.Some? && Reports(m, s, u.kind) &&
      u == Usage(filePath, m.lineno.value, m.colOffset.GetOr(0), ContextAt(lines, m.lineno.value), u.kind)
  {
    var evs := OwnEvents(m);
    var r := OwnUsages(filePath, lines, m);
    if m.lineno.Some? {
      if (s, u) in r {
        var i :| 0 <= i < |r| && r[i] == (s, u);
        assert evs[i] == (s, u.kind);
        OwnEventsReports(m, s, u.kind);
      }
      if Reports(m, s, u.kind) && u == UsageAt(filePath, lines, m, u.kind) {
        OwnEventsReports(m, s, u.kind);
        var i :| 0 <= i < |evs| && evs[i] == (s, u.kind);
        assert r[i] == (s, u);
      }
    }
  }

  // ---------------------------------------------------------------------
  // The symbol table: `Dict[str, List[SymbolUsage]]`
  // ---------------------------------------------------------------------

  /** A dictionary from symbol to usages with its keys in insertion order. */
  datatype SymbolTable = SymbolTable(order: seq<string>, usages: map<string, seq<Usage>>) {
    /** The order lists every key once. */
    ghost predicate Valid() {
      Distinct(order) && forall s :: s in usages <==> s in order
    }

    /** `table.get(symbol, [])` */
    function Get(s: string): seq<Usage> {
      if s in usages then usages[s] else []
    }
  }

  const EmptyTable: SymbolTable := SymbolTable([], map[])

  /** `if symbol not in table: table[symbol] = []`, then `table[symbol].extend(us)`. */
  function Extend(t: SymbolTable, s: string, us: seq<Usage>): SymbolTable {
    var t1 := if s in t.usages then t else SymbolTable(t.order + [s], t.usages[s := []]);
    t1.(usages := t1.usages[s := t1.usages[s] + us])
  }

  /** One `_add_usage` per recorded pair, in order. */
  function AppendAll(t: SymbolTable, evs: seq<(string, Usage)>): SymbolTable {
    if evs == [] then t
    else
      var last := evs[|evs| - 1];
      Extend(AppendAll(t, evs[..|evs| - 1]), last.0, [last.1])
  }

  /** The usages recorded for `s`, in order. */
  function UsagesFor(evs: seq<(string, Usage)>, s: string): seq<Usage> {
    if evs == [] then []
    else
      var last := evs[|evs| - 1];
      UsagesFor(evs[..|evs| - 1], s) + (if last.0 == s then [last.1] else [])
  }

  lemma ExtendGet(t: SymbolTable, x: string, us: seq<Usage>, s: string)
    ensures Extend(t, x, us).Get(s) == t.Get(s) + (if x == s then us else [])
  {
  }

  lemma ExtendValid(t: SymbolTable, x: string, us: seq<Usage>)
    requires t.Valid()
    ensures Extend(t, x, us).Valid()
    ensures Extend(t, x, us).order == if x in t.order then t.order else t.order + [x]
  {
  }

  /** The table the visitor builds holds, for each symbol, exactly the usages
      recorded for it, in order, after those it held before. */
  lemma {:induction false} AppendAllGet(t: SymbolTable, evs: seq<(string, Usage)>, s: string)
    ensures AppendAll(t, evs).Get(s) == t.Get(s) + UsagesFor(evs, s)
    decreases |evs|
  {
    if evs != [] {
      var last := evs[|evs| - 1];
      AppendAllGet(t, evs[..|evs| - 1], s);
      ExtendGet(AppendAll(t, evs[..|evs| - 1]), last.0, [last.1], s);
    }
  }

  lemma {:induction false} AppendAllValid(t: SymbolTable, evs: seq<(string, Usage)>)
    requires t.Valid()
    ensures AppendAll(t, evs).Valid()
    decreases |evs|
  {
    if evs != [] {
      var last := evs[|evs| - 1];
      AppendAllValid(t, evs[..|evs| - 1]);
      ExtendValid(AppendAll(t, evs[..|evs| - 1]), last.0, [last.1]);
    }
  }

  lemma {:induction false} AppendAllConcat(t: SymbolTable, a: seq<(string, Usage)>, b: seq<(string, Usage)>)
    ensures AppendAll(t, a + b) == AppendAll(AppendAll(t, a), b)
    decreases |b|
  {
    if b == [] {
      assert a + b == a;
    } else {
      assert (a + b)[..|a + b| - 1] == a + b[..|b| - 1];
      assert (a + b)[|a + b| - 1] == b[|b| - 1];
      AppendAllConcat(t, a, b[..|b| - 1]);
    }
  }

  lemma StampSnoc(filePath: string, lines: seq<string>, n: Node, names: seq<string>, i: nat, kind: UsageKind)
    requires i < |names|
    ensures Stamp(filePath, lines, n, Tagged(names[..i + 1], kind)) ==
      Stamp(filePath, lines, n, Tagged(names[..i], kind)) + Stamp(filePath, lines, n, [(names[i], kind)])
  {
    var a := Stamp(filePath, lines, n, Tagged(names[..i], kind));
    var b := Stamp(filePath, lines, n, [(names[i], kind)]);
    var c := Stamp(filePath, lines, n, Tagged(names[..i + 1], kind));
    if n.lineno.Some? {
      assert |c| == |a + b|;
      forall k | 0 <= k < |c| ensures c[k] == (a + b)[k] {
        if k < i {
          assert names[..i + 1][k] == names[..i][k];
        }
      }
    }
  }

  /** `_analyze_file`'s merge loop over the visitor's keys `ks`. */
  function MergeKeys(t: SymbolTable, v: SymbolTable, ks: seq<string>): SymbolTable {
    if ks == [] then t
    else
      var k := ks[|ks| - 1];
      Extend(MergeKeys(t, v, ks[..|ks| - 1]), k, v.Get(k))
  }

  lemma {:induction false} MergeKeysGet(t: SymbolTable, v: SymbolTable, ks: seq<string>, s: string)
    requires Distinct(ks)
    ensures MergeKeys(t, v, ks).Get(s) == t.Get(s) + (if s in ks then v.Get(s) else [])
    decreases |ks|
  {
    if ks != [] {
      var k := ks[|ks| - 1];
      var ks' := ks[..|ks| - 1];
      DistinctLast(ks);
      MergeKeysGet(t, v, ks', s);
      ExtendGet(MergeKeys(t, v, ks'), k, v.Get(k), s);
      if s == k {
        assert t.Get(s) + [] == t.Get(s);
      } else {
        assert MergeKeys(t, v, ks').Get(s) + [] == MergeKeys(t, v, ks').Get(s);
      }
    }
  }

  /** The last key of a duplicate-free list is not among the others. */
  lemma DistinctLast(ks: seq<string>)
    requires Distinct(ks) && ks != []
    ensures Distinct(ks[..|ks| - 1]) && ks[|ks| - 1] !in ks[..|ks| - 1]
    ensures forall s :: s in ks <==> s in ks[..|ks| - 1] || s == ks[|ks| - 1]
  {
    var ks' := ks[..|ks| - 1];
    assert ks == ks' + [ks[|ks| - 1]];
    forall j | 0 <= j < |ks'| ensures ks'[j] != ks[|ks| - 1] {
      assert ks'[j] == ks[j];
    }
  }

  lemma {:induction false} MergeKeysValid(t: SymbolTable, v: SymbolTable, ks: seq<string>)
    requires t.Valid()
    ensures MergeKeys(t, v, ks).Valid()
    decreases |ks|
  {
    if ks != [] {
      var k := ks[|ks| - 1];
      MergeKeysValid(t, v, ks[..|ks| - 1]);
      ExtendValid(MergeKeys(t, v, ks[..|ks| - 1]), k, v.Get(k));
    }
  }

  /** Merging a table adds each of its lists after the existing one. */
  lemma MergedGet(t: SymbolTable, v: SymbolTable, s: string)
    requires v.Valid()
    ensures MergeKeys(t, v, v.order).Get(s) == t.Get(s) + v.Get(s)
  {
    MergeKeysGet(t, v, v.order, s);
  }

  /** The visitor's table for one file: everything its tree records, from empty. */
  function FileTable(filePath: string, content: string, tree: Node): SymbolTable {
    AppendAll(EmptyTable, Collect(filePath, Split(content, '\n'), tree))
  }

  /** The table after `_analyze_file`; a file that does not parse changes nothing. */
  function Analyzed(t: SymbolTable, filePath: string, content: string, tree: Option<Node>): SymbolTable {
    match tree
    case None => t
    case Some(n) => var v := FileTable(filePath, content, n); MergeKeys(t, v, v.order)
  }

  /** After analysing a file, every symbol's list is its old list followed by
      the usages the file's tree records for it; other symbols keep theirs. */
  lemma {:induction false} AnalyzedGet(t: SymbolTable, filePath: string, content: string, tree: Option<Node>, s: string)
    ensures Analyzed(t, filePath, content, tree).Get(s) ==
      t.Get(s) + (if tree.Some? then UsagesFor(Collect(filePath, Split(content, '\n'), tree.value), s) else [])
  {
    if tree.Some? {
      MergedEventsGet(t, Collect(filePath, Split(content, '\n'), tree.value), s);
    }
  }

  /** Merging the table of a run of recorded usages appends, for each symbol,
      the usages recorded for it. */
  lemma MergedEventsGet(t: SymbolTable, evs: seq<(string, Usage)>, s: string)
    ensures var v := AppendAll(EmptyTable, evs); MergeKeys(t, v, v.order).Get(s) == t.Get(s) + UsagesFor(evs, s)
  {
    var v := AppendAll(EmptyTable, evs);
    AppendAllValid(EmptyTable, evs);
    assert v.Get(s) == UsagesFor(evs, s) by {
      AppendAllGet(EmptyTable, evs, s);
      assert EmptyTable.Get(s) == [];
    }
    MergedGet(t, v, s);
  }

  lemma AnalyzedValid(t: SymbolTable, filePath: string, content: string, tree: Option<Node>)
    requires t.Valid()
    ensures Analyzed(t, filePath, content, tree).Valid()
  {
    if tree.Some? {
      var v := FileTable(filePath, content, tree.value);
      MergeKeysValid(t, v, v.order);
    }
  }

  // ---------------------------------------------------------------------
  // SymbolVisitor
  // ---------------------------------------------------------------------

  class SymbolVisitor {
    const filePath: string
    const content: string
    const lines: seq<string>
    var symbolUsages: SymbolTable

    constructor(filePath: string, content: string)
      ensures this.filePath == filePath && this.content == content
      ensures lines == Split(content, '\n')
      ensures symbolUsages == EmptyTable
    {
      this.filePath := filePath;
      this.content := content;
      this.lines := Split(content, '\n');
      this.symbolUsages := EmptyTable;
    }

    /** `_add_usage` */
    method AddUsage(symbol: string, node: Node, usageType: UsageKind)
      modifies this
      ensures symbolUsages == AppendAll(old(symbolUsages), Stamp(filePath, lines, node, [(symbol, usageType)]))
    {
      if node.lineno.None? {
        return;
      }
      var lineIdx := node.lineno.value - 1;
      var context := if lineIdx < |lines| then lines[lineIdx] else "";
      var usage := Usage(filePath, node.lineno.value, node.colOffset.GetOr(0), Strip(context), usageType);
      var evs := Stamp(filePath, lines, node, [(symbol, usageType)]);
      assert evs[..0] == [];
      symbolUsages := Extend(symbolUsages, symbol, [usage]);
    }

    /** The `for alias in node.names` loop of `visit_Import` and `visit_ImportFrom`. */
    method AddAliases(names: seq<string>, node: Node)
      modifies this
      ensures symbolUsages == AppendAll(old(symbolUsages), Stamp(filePath, lines, node, Tagged(names, Import)))
    {
      for i := 0 to |names|
        invariant symbolUsages == AppendAll(old(symbolUsages), Stamp(filePath, lines, node, Tagged(names[..i], Import)))
      {
        ghost var before := symbolUsages;
        AddUsage(names[i], node, Import);
        StampSnoc(filePath, lines, node, names, i, Import);
        AppendAllConcat(old(symbolUsages), Stamp(filePath, lines, node, Tagged(names[..i], Import)),
          Stamp(filePath, lines, node, [(names[i], Import)]));
      }
      assert names[..|names|] == names;
    }

    /** The `_add_usage` calls of the node's `visit_*` method. */
    method VisitOwn(node: Node)
      modifies this
      ensures symbolUsages == AppendAll(old(symbolUsages), OwnUsages(filePath, lines, node))
    {
      match node.kind
      case FunctionDef(name) =>
        assert OwnEvents(node) == [(name, Definition)];
        AddUsage(name, node, Definition);
      case ClassDef(name) =>
        assert OwnEvents(node) == [(name, Definition)];
        AddUsage(name, node, Definition);
      case ImportStmt(names) =>
        assert OwnEvents(node) == Tagged(names, Import);
        AddAliases(names, node);
      case ImportFromStmt(moduleName, names) =>
        if moduleName.Some? && moduleName.value != "" {
          assert OwnEvents(node) == Tagged(names, Import);
          AddAliases(names, node);
        } else {
          assert OwnEvents(node) == [];
        }
      case CallExpr(func) =>
        match func {
          case NameCallee(id) =>
            assert OwnEvents(node) == [(id, Call)];
            AddUsage(id, node, Call);
          case AttributeCallee(attr) =>
            assert OwnEvents(node) == [(attr, Call)];
            AddUsage(attr, node, Call);
          case OtherCallee =>
            assert OwnEvents(node) == [];
        }
      case NameExpr(id, ctx) =>
        if ctx == Load || ctx == Store {
          assert OwnEvents(node) == [(id, Reference)];
          AddUsage(id, node, Reference);
        } else {
          assert OwnEvents(node) == [];
        }
      case OtherNode =>
        assert OwnEvents(node) == [];
    }

    /** `visit`: the node's own usages, then `generic_visit`. */
    method Visit(node: Node)
      modifies this
      ensures symbolUsages == AppendAll(old(symbolUsages), Collect(filePath, lines, node))
      decreases node, 1
    {
      VisitOwn(node);
      GenericVisit(node);
      AppendAllConcat(old(symbolUsages), OwnUsages(filePath, lines, node), CollectAll(filePath, lines, node.children));
    }

    /** `generic_visit`: every child, in order. */
    method GenericVisit(node: Node)
      modifies this
      ensures symbolUsages == AppendAll(old(symbolUsages), CollectAll(filePath, lines, node.children))
      decreases node, 0
    {
      var cs := node.children;
      for i := 0 to |cs|
        invariant symbolUsages == AppendAll(old(symbolUsages), CollectAll(filePath, lines, cs[..i]))
      {
        Visit(cs[i]);
        assert cs[..i + 1][..i] == cs[..i];
        AppendAllConcat(old(symbolUsages), CollectAll(filePath, lines, cs[..i]), Collect(filePath, lines, cs[i]));
      }
      assert cs[..|cs|] == cs;
    }
  }

  // ---------------------------------------------------------------------
  // The dependency graph
  // ---------------------------------------------------------------------

  /** `DependencyNode` */
  datatype DepNode = DepNode(symbol: string, filePath: string, dependencies: seq<string>, dependents: seq<string>)

  /** `Dict[str, DependencyNode]` with its keys in insertion order. */
  datatype Graph = Graph(order: seq<string>, nodes: map<string, DepNode>)

  /** `[u for u in usages if u.usage_type == 'definition']` */
  function Definitions(us: seq<Usage>): seq<Usage> {
    if us == [] then [] else (if us[0].kind == Definition then [us[0]] else []) + Definitions(us[1..])
  }

  predicate HasDefinition(t: SymbolTable, s: string) {
    Definitions(t.Get(s)) != []
  }

  /** The file of the symbol's first definition. */
  function DefFile(t: SymbolTable, s: string): string
    requires HasDefinition(t, s)
  {
    Definitions(t.Get(s))[0].filePath
  }

  /** The first definition is the usage of definition type that comes first. */
  lemma DefinitionsFirst(us: seq<Usage>)
    ensures Definitions(us) == [] <==> forall u :: u in us ==> u.kind != Definition
    ensures Definitions(us) != [] ==>
      exists k :: 0 <= k < |us| && us[k] == Definitions(us)[0] && us[k].kind == Definition &&
        forall j :: 0 <= j < k ==> us[j].kind != Definition
  {
    DefinitionsNone(us);
    if Definitions(us) != [] {
      var k := DefinitionsHead(us);
    }
  }

  /** There is no definition exactly when no usage is one. */
  lemma {:induction false} DefinitionsNone(us: seq<Usage>)
    ensures Definitions(us) == [] <==> forall u :: u in us ==> u.kind != Definition
    decreases |us|
  {
    if us != [] {
      DefinitionsNone(us[1..]);
      assert forall u :: u in us <==> u == us[0] || u in us[1..];
    }
  }

  /** The first definition is the earliest usage of definition type. */
  lemma {:induction false} DefinitionsHead(us: seq<Usage>) returns (k: nat)
    requires Definitions(us) != []
    ensures k < |us| && us[k] == Definitions(us)[0] && us[k].kind == Definition
    ensures forall j :: 0 <= j < k ==> us[j].kind != Definition
    decreases |us|
  {
    if us[0].kind == Definition {
      k := 0;
    } else {
      assert Definitions(us) == Definitions(us[1..]);
      var k' := DefinitionsHead(us[1..]);
      k := k' + 1;
      forall j | 0 <= j < k ensures us[j].kind != Definition {
        if j > 0 {
          assert us[j] == us[1..][j - 1];
        }
      }
    }
  }

  function NewNode(t: SymbolTable, s: string): DepNode
    requires HasDefinition(t, s)
  {
    DepNode(s, DefFile(t, s), [], [])
  }

  /** `graph[symbol] = node` */
  function AddNode(g: Graph, s: string, node: DepNode): Graph {
    Graph(if s in g.nodes then g.order else g.order + [s], g.nodes[s := node])
  }

  /** The first pass over the symbols `ks`: a node without edges for every
      symbol that has a definition. */
  function Nodes(t: SymbolTable, ks: seq<string>): Graph {
    if ks == [] then Graph([], map[])
    else
      var g := Nodes(t, ks[..|ks| - 1]);
      var s := ks[|ks| - 1];
      if HasDefinition(t, s) then AddNode(g, s, NewNode(t, s)) else g
  }

  /** The first pass gives a node exactly to the symbols with a definition,
      each filed under its first definition's file, with no edges yet. */
  lemma {:induction false} NodesShape(t: SymbolTable, ks: seq<string>)
    ensures Distinct(Nodes(t, ks).order)
    ensures forall s :: s in Nodes(t, ks).nodes <==> s in Nodes(t, ks).order
    ensures forall s :: s in Nodes(t, ks).nodes <==> s in ks && HasDefinition(t, s)
    ensures forall s :: s in Nodes(t, ks).nodes ==> Nodes(t, ks).nodes[s] == NewNode(t, s)
    decreases |ks|
  {
    if ks != [] {
      var ks' := ks[..|ks| - 1];
      NodesShape(t, ks');
      assert ks == ks' + [ks[|ks| - 1]];
      NodesStep(t, ks', ks[|ks| - 1], Nodes(t, ks'));
    }
  }

  /** What `NodesShape` states of a graph `g` built from the symbols `ks`. */
  ghost predicate NodesFit(t: SymbolTable, ks: seq<string>, g: Graph) {
    Distinct(g.order) &&
    (forall s :: s in g.nodes <==> s in g.order) &&
    (forall s :: s in g.nodes <==> s in ks && HasDefinition(t, s)) &&
    (forall s :: s in g.nodes ==> g.nodes[s] == NewNode(t, s))
  }

  /** One step of the first pass keeps `NodesFit`. */
  lemma NodesStep(t: SymbolTable, ks: seq<string>, s: string, g: Graph)
    requires NodesFit(t, ks, g)
    ensures NodesFit(t, ks + [s], if HasDefinition(t, s) then AddNode(g, s, NewNode(t, s)) else g)
  {
    assert forall x :: x in ks + [s] <==> x in ks || x == s;
    if HasDefinition(t, s) && s !in g.nodes {
      var o := g.order + [s];
      forall i, j | 0 <= i < j < |o| ensures o[i] != o[j] {
        if j == |g.order| {
          assert o[i] == g.order[i];
        }
      }
    }
  }

  /** An edge `(symbol, other_symbol)`: `symbol` depends on `other_symbol`. */
  type Link = (string, string)

  /** The `for other_symbol in graph` loop for one usage of `s`. */
  function UsageTargets(ks: seq<string>, s: string, u: Usage): seq<Link> {
    if ks == [] then []
    else
      var other := ks[|ks| - 1];
      UsageTargets(ks[..|ks| - 1], s, u) + (if Contains(u.context, other) && other != s then [(s, other)] else [])
  }

  /** The `for usage in file_usages` loop for `s`. */
  function UsagesLinks(ks: seq<string>, s: string, us: seq<Usage>): seq<Link> {
    if us == [] then []
    else
      var u := us[|us| - 1];
      UsagesLinks(ks, s, us[..|us| - 1]) + (if IsDependencyKind(u.kind) then UsageTargets(ks, s, u) else [])
  }

  /** `[u for u in usages if u.file_path == file]` */
  function FileUsages(us: seq<Usage>, file: string): (r: seq<Usage>)
    ensures forall u :: u in r <==> u in us && u.filePath == file
  {
    if us == [] then []
    else
      assert forall u :: u in us <==> u == us[0] || u in us[1..];
      (if us[0].filePath == file then [us[0]] else []) + FileUsages(us[1..], file)
  }

  /** The links found for `s`, from its usages in the file of its first definition. */
  function SymbolLinks(t: SymbolTable, ks: seq<string>, s: string): seq<Link>
    requires HasDefinition(t, s)
  {
    UsagesLinks(ks, s, FileUsages(t.Get(s), DefFile(t, s)))
  }

  /** The second pass over the graph's symbols `ss`. */
  function LinksOf(t: SymbolTable, ks: seq<string>, ss: seq<string>): seq<Link>
    requires forall s :: s in ss ==> HasDefinition(t, s)
  {
    if ss == [] then []
    else LinksOf(t, ks, ss[..|ss| - 1]) + SymbolLinks(t, ks, ss[|ss| - 1])
  }

  /** One link: `other` joins the symbol's dependencies and the symbol joins
      `other`'s dependents, each only if not there yet. */
  function AddLink(g: Graph, s: string, other: string): (r: Graph)
    ensures r.order == g.order && r.nodes.Keys == g.nodes.Keys
    ensures forall x :: x in r.nodes ==> r.nodes[x].symbol == g.nodes[x].symbol && r.nodes[x].filePath == g.nodes[x].filePath
  {
    if s !in g.nodes || other !in g.nodes then g
    else
      var n := g.nodes[s];
      var g1 := if other in n.dependencies then g
        else g.(nodes := g.nodes[s := n.(dependencies := n.dependencies + [other])]);
      var m := g1.nodes[other];
      if s in m.dependents then g1
      else g1.(nodes := g1.nodes[other := m.(dependents := m.dependents + [s])])
  }

  function ApplyLinks(g: Graph, links: seq<Link>): (r: Graph)
    ensures r.order == g.order && r.nodes.Keys == g.nodes.Keys
    ensures forall x :: x in r.nodes ==> r.nodes[x].symbol == g.nodes[x].symbol && r.nodes[x].filePath == g.nodes[x].filePath
  {
    if links == [] then g
    else
      var l := links[|links| - 1];
      AddLink(ApplyLinks(g, links[..|links| - 1]), l.0, l.1)
  }

  lemma {:induction false} ApplyLinksConcat(g: Graph, a: seq<Link>, b: seq<Link>)
    ensures ApplyLinks(g, a + b) == ApplyLinks(ApplyLinks(g, a), b)
    decreases |b|
  {
    if b == [] {
      assert a + b == a;
    } else {
      assert (a + b)[..|a + b| - 1] == a + b[..|b| - 1];
      assert (a + b)[|a + b| - 1] == b[|b| - 1];
      ApplyLinksConcat(g, a, b[..|b| - 1]);
    }
  }

  function AllLinks(t: SymbolTable): seq<Link> {
    var g0 := Nodes(t, t.order);
    NodesShape(t, t.order);
    LinksOf(t, g0.order, g0.order)
  }

  /** The graph `build_dependency_graph` returns. */
  function DependencyGraph(t: SymbolTable): Graph {
    ApplyLinks(Nodes(t, t.order), AllLinks(t))
  }

  /** `a` depends on `b`: both are defined, they differ, and a usage of `a`
      other than a definition, in the file of `a`'s first definition, has
      `b` in its context line. */
  predicate Edge(t: SymbolTable, a: string, b: string) {
    HasDefinition(t, a) && HasDefinition(t, b) && a != b &&
    exists u :: u in t.Get(a) && u.filePath == DefFile(t, a) && IsDependencyKind(u.kind) && Contains(u.context, b)
  }

  lemma {:induction false} UsageTargetsMember(ks: seq<string>, s: string, u: Usage, l: Link)
    ensures l in UsageTargets(ks, s, u) <==> l.0 == s && l.1 in ks && l.1 != s && Contains(u.context, l.1)
    decreases |ks|
  {
    if ks != [] {
      var ks' := ks[..|ks| - 1];
      UsageTargetsMember(ks', s, u, l);
      assert l.1 in ks <==> l.1 in ks' || l.1 == ks[|ks| - 1];
    }
  }

  lemma {:induction false} UsagesLinksMember(ks: seq<string>, s: string, us: seq<Usage>, l: Link)
    ensures l in UsagesLinks(ks, s, us) <==>
      l.0 == s && l.1 in ks && l.1 != s &&
      exists u :: u in us && IsDependencyKind(u.kind) && Contains(u.context, l.1)
    decreases |us|
  {
    if us != [] {
      var us' := us[..|us| - 1];
      var u := us[|us| - 1];
      UsagesLinksMember(ks, s, us', l);
      UsageTargetsMember(ks, s, u, l);
      assert forall x :: x in us <==> x in us' || x == u;
    }
  }

  lemma {:induction false} LinksOfMember(t: SymbolTable, ks: seq<string>, ss: seq<string>, l: Link)
    requires forall s :: s in ss ==> HasDefinition(t, s)
    ensures l in LinksOf(t, ks, ss) <==> l.0 in ss && l in SymbolLinks(t, ks, l.0)
    decreases |ss|
  {
    if ss != [] {
      var ss' := ss[..|ss| - 1];
      var s := ss[|ss| - 1];
      LinksOfMember(t, ks, ss', l);
      assert forall x :: x in ss <==> x in ss' || x == s;
      UsagesLinksMember(ks, s, FileUsages(t.Get(s), DefFile(t, s)), l);
      if l.0 in ss' {
        UsagesLinksMember(ks, l.0, FileUsages(t.Get(l.0), DefFile(t, l.0)), l);
      }
    }
  }

  /** The links of the whole second pass are exactly the edges. */
  lemma AllLinksEdges(t: SymbolTable, a: string, b: string)
    requires t.Valid()
    ensures (a, b) in AllLinks(t) <==> Edge(t, a, b)
  {
    var g0 := Nodes(t, t.order);
    NodesShape(t, t.order);
    LinksOfMember(t, g0.order, g0.order, (a, b));
    if a in g0.order {
      UsagesLinksMember(g0.order, a, FileUsages(t.Get(a), DefFile(t, a)), (a, b));
    }
    if Edge(t, a, b) {
      assert a in t.usages && b in t.usages;
    }
  }

  lemma AddLinkMember(g: Graph, s: string, other: string, x: string, y: string)
    requires s in g.nodes && other in g.nodes && x in g.nodes
    ensures y in AddLink(g, s, other).nodes[x].dependencies <==> y in g.nodes[x].dependencies || (x == s && y == other)
    ensures y in AddLink(g, s, other).nodes[x].dependents <==> y in g.nodes[x].dependents || (x == other && y == s)
  {
  }

  lemma {:induction false} ApplyLinksMember(g: Graph, links: seq<Link>, x: string, y: string)
    requires forall l :: l in links ==> l.0 in g.nodes && l.1 in g.nodes
    requires x in g.nodes
    ensures y in ApplyLinks(g, links).nodes[x].dependencies <==> y in g.nodes[x].dependencies || (x, y) in links
    ensures y in ApplyLinks(g, links).nodes[x].dependents <==> y in g.nodes[x].dependents || (y, x) in links
    decreases |links|
  {
    if links != [] {
      var ls := links[..|links| - 1];
      var l := links[|links| - 1];
      assert forall k :: k in links <==> k in ls || k == l;
      ApplyLinksMember(g, ls, x, y);
      AddLinkMember(ApplyLinks(g, ls), l.0, l.1, x, y);
    }
  }

  lemma AddLinkDistinct(g: Graph, s: string, other: string, x: string)
    requires x in g.nodes
    requires Distinct(g.nodes[x].dependencies) && Distinct(g.nodes[x].dependents)
    ensures Distinct(AddLink(g, s, other).nodes[x].dependencies)
    ensures Distinct(AddLink(g, s, other).nodes[x].dependents)
  {
  }

  lemma {:induction false} ApplyLinksDistinct(g: Graph, links: seq<Link>, x: string)
    requires x in g.nodes
    requires Distinct(g.nodes[x].dependencies) && Distinct(g.nodes[x].dependents)
    ensures Distinct(ApplyLinks(g, links).nodes[x].dependencies)
    ensures Distinct(ApplyLinks(g, links).nodes[x].dependents)
    decreases |links|
  {
    if links != [] {
      var ls := links[..|links| - 1];
      var l := links[|links| - 1];
      ApplyLinksDistinct(g, ls, x);
      AddLinkDistinct(ApplyLinks(g, ls), l.0, l.1, x);
    }
  }

  /** The graph has a node exactly for each defined symbol, named by it and
      filed under the file of its first definition. */
  lemma DependencyGraphNodes(t: SymbolTable, s: string)
    requires t.Valid()
    ensures s in DependencyGraph(t).nodes <==> HasDefinition(t, s)
    ensures s in DependencyGraph(t).nodes ==>
      DependencyGraph(t).nodes[s].symbol == s && DependencyGraph(t).nodes[s].filePath == DefFile(t, s)
    ensures Distinct(DependencyGraph(t).order)
    ensures s in DependencyGraph(t).order <==> s in DependencyGraph(t).nodes
  {
    NodesShape(t, t.order);
    if HasDefinition(t, s) {
      assert s in t.usages;
    }
  }

  /** `b` is among `a`'s dependencies exactly when `a` is among `b`'s
      dependents, exactly when `a` depends on `b`. */
  lemma DependencyGraphEdges(t: SymbolTable, a: string, b: string)
    requires t.Valid()
    ensures var g := DependencyGraph(t); (a in g.nodes && b in g.nodes[a].dependencies) <==> Edge(t, a, b)
    ensures var g := DependencyGraph(t); (b in g.nodes && a in g.nodes[b].dependents) <==> Edge(t, a, b)
  {
    var g0 := Nodes(t, t.order);
    NodesShape(t, t.order);
    var links := AllLinks(t);
    forall l | l in links ensures l.0 in g0.nodes && l.1 in g0.nodes {
      AllLinksEdges(t, l.0, l.1);
      assert l.0 in t.usages && l.1 in t.usages;
    }
    AllLinksEdges(t, a, b);
    if a in g0.nodes {
      ApplyLinksMember(g0, links, a, b);
    }
    if b in g0.nodes {
      ApplyLinksMember(g0, links, b, a);
    }
    if Edge(t, a, b) {
      assert a in t.usages && b in t.usages;
    }
  }

  /** No list holds a symbol twice, and no symbol depends on itself. */
  lemma DependencyGraphLists(t: SymbolTable, s: string)
    requires t.Valid()
    requires s in DependencyGraph(t).nodes
    ensures Distinct(DependencyGraph(t).nodes[s].dependencies)
    ensures Distinct(DependencyGraph(t).nodes[s].dependents)
    ensures s !in DependencyGraph(t).nodes[s].dependencies && s !in DependencyGraph(t).nodes[s].dependents
    ensures forall x :: x in DependencyGraph(t).nodes[s].dependencies ==> x in DependencyGraph(t).nodes
    ensures forall x :: x in DependencyGraph(t).nodes[s].dependents ==> x in DependencyGraph(t).nodes
  {
    var g := DependencyGraph(t);
    NodesShape(t, t.order);
    ApplyLinksDistinct(Nodes(t, t.order), AllLinks(t), s);
    DependencyGraphEdges(t, s, s);
    forall x | x in g.nodes[s].dependencies ensures x in g.nodes {
      DependencyGraphEdges(t, s, x);
      DependencyGraphNodes(t, x);
    }
    forall x | x in g.nodes[s].dependents ensures x in g.nodes {
      DependencyGraphEdges(t, x, s);
      DependencyGraphNodes(t, x);
    }
  }

  /** The innermost loop of the second pass: one usage of `symbol`. */
  method LinkUsage(graph: Graph, keys: seq<string>, symbol: string, usage: Usage) returns (g: Graph)
    requires symbol in graph.nodes && forall k :: k in keys ==> k in graph.nodes
    ensures g == ApplyLinks(graph, UsageTargets(keys, symbol, usage))
  {
    g := graph;
    for k := 0 to |keys|
      invariant g == ApplyLinks(graph, UsageTargets(keys[..k], symbol, usage))
    {
      var other := keys[k];
      ghost var done := UsageTargets(keys[..k], symbol, usage);
      UsageTargetsSnoc(keys, k, symbol, usage);
      if Contains(usage.context, other) && other != symbol {
        g := LinkPair(g, symbol, other);
        ApplyLinksSnoc(graph, done, (symbol, other));
      } else {
        assert done + [] == done;
      }
    }
    assert keys[..|keys|] == keys;
  }

  /** The two appends for one link, each skipped when the entry is already there. */
  method LinkPair(graph: Graph, symbol: string, other: string) returns (g: Graph)
    requires symbol in graph.nodes && other in graph.nodes
    ensures g == AddLink(graph, symbol, other)
  {
    g := graph;
    var n := g.nodes[symbol];
    if other !in n.dependencies {
      g := g.(nodes := g.nodes[symbol := n.(dependencies := n.dependencies + [other])]);
    }
    var m := g.nodes[other];
    if symbol !in m.dependents {
      g := g.(nodes := g.nodes[other := m.(dependents := m.dependents + [symbol])]);
    }
  }

  lemma UsageTargetsSnoc(ks: seq<string>, k: nat, s: string, u: Usage)
    requires k < |ks|
    ensures UsageTargets(ks[..k + 1], s, u) ==
      UsageTargets(ks[..k], s, u) + (if Contains(u.context, ks[k]) && ks[k] != s then [(s, ks[k])] else [])
  {
    assert ks[..k + 1][..k] == ks[..k];
  }

  lemma UsagesLinksSnoc(ks: seq<string>, s: string, us: seq<Usage>, j: nat)
    requires j < |us|
    ensures UsagesLinks(ks, s, us[..j + 1]) ==
      UsagesLinks(ks, s, us[..j]) + (if IsDependencyKind(us[j].kind) then UsageTargets(ks, s, us[j]) else [])
  {
    assert us[..j + 1][..j] == us[..j];
  }

  lemma ApplyLinksSnoc(g: Graph, links: seq<Link>, l: Link)
    ensures ApplyLinks(g, links + [l]) == AddLink(ApplyLinks(g, links), l.0, l.1)
  {
    assert (links + [l])[..|links|] == links;
  }

  /** The `for usage in file_usages` loop of the second pass for `symbol`. */
  method LinkSymbol(graph: Graph, keys: seq<string>, symbol: string, fileUsages: seq<Usage>) returns (g: Graph)
    requires symbol in graph.nodes && forall k :: k in keys ==> k in graph.nodes
    ensures g == ApplyLinks(graph, UsagesLinks(keys, symbol, fileUsages))
  {
    g := graph;
    for j := 0 to |fileUsages|
      invariant g == ApplyLinks(graph, UsagesLinks(keys, symbol, fileUsages[..j]))
    {
      var usage := fileUsages[j];
      ghost var done := UsagesLinks(keys, symbol, fileUsages[..j]);
      UsagesLinksSnoc(keys, symbol, fileUsages, j);
      if IsDependencyKind(usage.kind) {
        g := LinkUsage(g, keys, symbol, usage);
        ApplyLinksConcat(graph, done, UsageTargets(keys, symbol, usage));
      } else {
        assert done + [] == done;
      }
    }
    assert fileUsages[..|fileUsages|] == fileUsages;
  }

  /** The first pass of `build_dependency_graph`. */
  method AddNodes(t: SymbolTable) returns (graph: Graph)
    ensures graph == Nodes(t, t.order)
  {
    graph := Graph([], map[]);
    for i := 0 to |t.order|
      invariant graph == Nodes(t, t.order[..i])
    {
      var symbol := t.order[i];
      var definitions := Definitions(t.Get(symbol));
      if definitions != [] {
        var node := DepNode(symbol, definitions[0].filePath, [], []);
        graph := Graph(if symbol in graph.nodes then graph.order else graph.order + [symbol], graph.nodes[symbol := node]);
      }
      assert t.order[..i + 1][..i] == t.order[..i];
    }
    assert t.order[..|t.order|] == t.order;
  }

  /** The second pass of `build_dependency_graph`, over the nodes of the first. */
  method AddEdges(t: SymbolTable, nodes: Graph) returns (graph: Graph)
    requires nodes == Nodes(t, t.order)
    ensures graph == DependencyGraph(t)
  {
    NodesShape(t, t.order);
    graph := nodes;
    var keys := graph.order;
    for i := 0 to |keys|
      invariant graph == ApplyLinks(nodes, LinksOf(t, keys, keys[..i]))
    {
      var symbol := keys[i];
      var node := graph.nodes[symbol];
      assert node.filePath == DefFile(t, symbol) by {
        assert nodes.nodes[symbol] == NewNode(t, symbol);
      }
      var fileUsages := FileUsages(t.Get(symbol), node.filePath);
      ghost var done := LinksOf(t, keys, keys[..i]);
      graph := LinkSymbol(graph, keys, symbol, fileUsages);
      ApplyLinksConcat(nodes, done, SymbolLinks(t, keys, symbol));
      LinksOfSnoc(t, keys, i);
    }
    assert keys[..|keys|] == keys;
  }

  lemma LinksOfSnoc(t: SymbolTable, ks: seq<string>, i: nat)
    requires i < |ks| && forall s :: s in ks ==> HasDefinition(t, s)
    ensures LinksOf(t, ks, ks[..i + 1]) == LinksOf(t, ks, ks[..i]) + SymbolLinks(t, ks, ks[i])
  {
    assert ks[..i + 1][..i] == ks[..i];
  }

  // ---------------------------------------------------------------------
  // Impact summary
  // ---------------------------------------------------------------------

  datatype UsageBreakdown = UsageBreakdown(imports: nat, calls: nat, references: nat, definitions: nat)

  /** The dictionary `analyze_impact` returns; `dependencies` and
      `dependents` are absent for a symbol without a graph node. */
  datatype Impact = Impact(
    symbol: string,
    totalUsages: nat,
    affectedFiles: set<string>,
    fileCount: nat,
    breakdown: UsageBreakdown,
    dependencies: Option<seq<string>>,
    dependents: Option<seq<string>>)

  /** `len([u for u in usages if u.usage_type == kind])` */
  function CountKind(us: seq<Usage>, kind: UsageKind): nat {
    if us == [] then 0 else (if us[0].kind == kind then 1 else 0) + CountKind(us[1..], kind)
  }

  /** `set(u.file_path for u in usages)` */
  function FilesOf(us: seq<Usage>): set<string> {
    set u | u in us :: u.filePath
  }

  /** Every usage has exactly one of the four types. */
  lemma {:induction false} BreakdownSum(us: seq<Usage>)
    ensures CountKind(us, Import) + CountKind(us, Call) + CountKind(us, Reference) + CountKind(us, Definition) == |us|
    decreases |us|
  {
    if us != [] {
      BreakdownSum(us[1..]);
    }
  }

  /** There are no more distinct files than usages. */
  lemma {:induction false} FilesBound(us: seq<Usage>)
    ensures |FilesOf(us)| <= |us|
    decreases |us|
  {
    if us != [] {
      FilesBound(us[1..]);
      assert FilesOf(us) == {us[0].filePath} + FilesOf(us[1..]) by {
        assert forall u :: u in us <==> u == us[0] || u in us[1..];
      }
    }
  }

  // ---------------------------------------------------------------------
  // grep and git blame output
  // ---------------------------------------------------------------------

  /** One result of `grep_search`. */
  datatype GrepMatch = GrepMatch(file: string, lineNumber: string, content: string)

  /** One output line: a result when `line.split(':', 2)` has three parts. */
  function GrepLine(line: string): Option<GrepMatch> {
    if ':' in line then
      var parts := SplitMax(line, ':', 2);
      if |parts| >= 3 then Some(GrepMatch(parts[0], parts[1], Strip(parts[2]))) else None
    else None
  }

  function GrepRecords(lines: seq<string>): seq<GrepMatch> {
    if lines == [] then []
    else
      var r := GrepLine(lines[|lines| - 1]);
      GrepRecords(lines[..|lines| - 1]) + (if r.Some? then [r.value] else [])
  }

  /** The results for `grep`'s standard output. */
  function GrepOutput(stdout: string): seq<GrepMatch> {
    if stdout == "" then [] else GrepRecords(Split(Strip(stdout), '\n'))
  }

  lemma GrepLineParts(line: string, a: string, b: string, c: string, d: string)
    requires SplitOnce(line, ':') == Some((a, b)) && SplitOnce(b, ':') == Some((c, d))
    ensures GrepLine(line) == Some(GrepMatch(a, c, Strip(d)))
  {
    assert SplitMax(b, ':', 1) == [c] + SplitMax(d, ':', 0);
    assert SplitMax(line, ':', 2) == [a] + SplitMax(b, ':', 1);
    assert ':' in line by {
      SplitOnceSpec(line, ':');
    }
  }

  lemma TwoColons(line: string, a: string, b: string, c: string, d: string)
    requires SplitOnce(line, ':') == Some((a, b)) && SplitOnce(b, ':') == Some((c, d))
    ensures ':' !in a && ':' !in c && line == a + ":" + c + ":" + d
  {
    SplitOnceSpec(line, ':');
    SplitOnceSpec(b, ':');
    assert line == (a + ":") + b;
    assert b == (c + ":") + d;
    AppendAssoc(a + ":", c + ":", d);
    AppendAssoc(a + ":", c, ":");
  }

  lemma GrepLineOneColon(line: string, a: string, b: string)
    requires SplitOnce(line, ':') == Some((a, b)) && SplitOnce(b, ':').None?
    ensures GrepLine(line).None?
  {
    assert SplitMax(b, ':', 1) == [b];
    assert SplitMax(line, ':', 2) == [a, b];
  }

  /** A line gives a result exactly when it holds at least two colons; the
      file and line number are the colon-free texts before the first and the
      second colon, and the content is the rest, stripped. */
  lemma GrepLineSpec(line: string)
    ensures GrepLine(line).Some? <==> CountChar(line, ':') >= 2
    ensures GrepLine(line).Some? ==>
      var m := GrepLine(line).value;
      ':' !in m.file && ':' !in m.lineNumber &&
      exists rest :: line == m.file + ":" + m.lineNumber + ":" + rest && m.content == Strip(rest)
  {
    if SplitOnce(line, ':').Some? {
      var a := SplitOnce(line, ':').value.0;
      var b := SplitOnce(line, ':').value.1;
      SplitOnceCount(line, ':');
      if SplitOnce(b, ':').Some? {
        var c := SplitOnce(b, ':').value.0;
        var d := SplitOnce(b, ':').value.1;
        SplitOnceCount(b, ':');
        GrepLineParts(line, a, b, c, d);
        TwoColons(line, a, b, c, d);
      } else {
        SplitOnceSpec(b, ':');
        CountCharAbsent(b, ':');
        GrepLineOneColon(line, a, b);
      }
    } else {
      SplitOnceSpec(line, ':');
      CountCharAbsent(line, ':');
    }
  }

  /** Results keep the order of the output lines. */
  lemma {:induction false} GrepRecordsAppend(a: seq<string>, b: seq<string>)
    ensures GrepRecords(a + b) == GrepRecords(a) + GrepRecords(b)
    decreases |b|
  {
    if b == [] {
      assert a + b == a;
    } else {
      assert (a + b)[..|a + b| - 1] == a + b[..|b| - 1];
      assert (a + b)[|a + b| - 1] == b[|b| - 1];
      GrepRecordsAppend(a, b[..|b| - 1]);
    }
  }

  /** The loop over `output.stdout.strip().split('\n')`. */
  method ParseGrepOutput(stdout: string) returns (results: seq<GrepMatch>)
    ensures results == GrepOutput(stdout)
  {
    results := [];
    if stdout != "" {
      var lines := Split(Strip(stdout), '\n');
      for i := 0 to |lines|
        invariant results == GrepRecords(lines[..i])
      {
        var line := lines[i];
        if ':' in line {
          var parts := SplitMax(line, ':', 2);
          if |parts| >= 3 {
            results := results + [GrepMatch(parts[0], parts[1], Strip(parts[2]))];
          }
        }
        assert lines[..i + 1][..i] == lines[..i];
      }
      assert lines[..|lines|] == lines;
    }
  }

  /** The fields `git_blame` returns; each is absent until a line sets it. */
  datatype BlameInfo = BlameInfo(author: Option<string>, timestamp: Option<string>, commitMessage: Option<string>)

  /** The text after the prefix of the last line that starts with it. */
  function LastValue(lines: seq<string>, prefix: string): Option<string> {
    if lines == [] then None
    else
      var line := lines[|lines| - 1];
      if StartsWith(line, prefix) then Some(line[|prefix|..]) else LastValue(lines[..|lines| - 1], prefix)
  }

  function BlameOf(stdout: string): BlameInfo {
    var lines := Split(stdout, '\n');
    BlameInfo(LastValue(lines, "author "), LastValue(lines, "author-time "), LastValue(lines, "summary "))
  }

  /** The last line with the prefix wins; with no such line the field is absent. */
  lemma {:induction false} LastValueSpec(lines: seq<string>, prefix: string)
    ensures LastValue(lines, prefix).None? <==> forall k :: 0 <= k < |lines| ==> !StartsWith(lines[k], prefix)
    ensures LastValue(lines, prefix).Some? ==>
      exists k :: 0 <= k < |lines| && StartsWith(lines[k], prefix) &&
        LastValue(lines, prefix).value == lines[k][|prefix|..] &&
        forall j :: k < j < |lines| ==> !StartsWith(lines[j], prefix)
    decreases |lines|
  {
    if lines != [] {
      var ls := lines[..|lines| - 1];
      LastValueSpec(ls, prefix);
      if !StartsWith(lines[|lines| - 1], prefix) {
        if LastValue(ls, prefix).Some? {
          var k :| 0 <= k < |ls| && StartsWith(ls[k], prefix) && LastValue(ls, prefix).value == ls[k][|prefix|..] &&
            forall j :: k < j < |ls| ==> !StartsWith(ls[j], prefix);
          assert lines[k] == ls[k];
        }
        assert forall k :: 0 <= k < |ls| ==> lines[k] == ls[k];
      }
    }
  }

  /** `line.split(' ', 1)[1]` on a line that starts with a one-word prefix is the text after it. */
  lemma AfterFirstSpace(line: string, word: string)
    requires ' ' !in word && StartsWith(line, word + " ")
    ensures SplitMax(line, ' ', 1) == [word, line[|word| + 1..]]
  {
    assert line == word + [' '] + line[|word| + 1..];
    SplitOnceOf(word, line[|word| + 1..], ' ');
  }

  /** The loop over the `git blame --porcelain` lines. */
  method ParseBlame(stdout: string) returns (info: BlameInfo)
    ensures info == BlameOf(stdout)
  {
    var lines := Split(stdout, '\n');
    info := BlameInfo(None, None, None);
    for i := 0 to |lines|
      invariant info == BlameInfo(LastValue(lines[..i], "author "), LastValue(lines[..i], "author-time "),
        LastValue(lines[..i], "summary "))
    {
      var line := lines[i];
      assert lines[..i + 1][..i] == lines[..i];
      if StartsWith(line, "author ") {
        AfterFirstSpace(line, "author");
        assert !StartsWith(line, "author-time ") by { assert line[6] == ' '; }
        assert !StartsWith(line, "summary ") by { assert line[0] == 'a'; }
        info := info.(author := Some(SplitMax(line, ' ', 1)[1]));
      } else if StartsWith(line, "author-time ") {
        AfterFirstSpace(line, "author-time");
        assert !StartsWith(line, "summary ") by { assert line[0] == 'a'; }
        info := info.(timestamp := Some(SplitMax(line, ' ', 1)[1]));
      } else if StartsWith(line, "summary ") {
        AfterFirstSpace(line, "summary");
        info := info.(commitMessage := Some(SplitMax(line, ' ', 1)[1]));
      }
    }
    assert lines[..|lines|] == lines;
  }

  // ---------------------------------------------------------------------
  // CodeScout
  // ---------------------------------------------------------------------

  class CodeScout {
    const rootDirectory: string
    var symbolUsages: SymbolTable

    ghost predicate Valid()
      reads this
    {
      symbolUsages.Valid()
    }

    /** The scanner for a local directory. */
    constructor(rootDirectory: string)
      ensures this.rootDirectory == rootDirectory && symbolUsages == EmptyTable
      ensures Valid()
    {
      this.rootDirectory := rootDirectory;
      this.symbolUsages := EmptyTable;
    }

    /** `_analyze_file`: visit the file's tree and merge its table, symbol by symbol. */
    method AnalyzeFile(filePath: string, content: string, tree: Option<Node>)
      requires Valid()
      modifies this
      ensures Valid()
      ensures symbolUsages == Analyzed(old(symbolUsages), filePath, content, tree)
    {
      AnalyzedValid(symbolUsages, filePath, content, tree);
      if tree.None? {
        return;
      }
      var visitor := new SymbolVisitor(filePath, content);
      visitor.Visit(tree.value);
      AppendAllValid(EmptyTable, Collect(filePath, Split(content, '\n'), tree.value));
      MergeTable(visitor.symbolUsages);
    }

    /** The merge loop of `_analyze_file`: each of the visitor's lists is
        appended to this scanner's list for the symbol, created if missing. */
    method MergeTable(v: SymbolTable)
      requires v.Valid()
      modifies this
      ensures symbolUsages == MergeKeys(old(symbolUsages), v, v.order)
    {
      for i := 0 to |v.order|
        invariant symbolUsages == MergeKeys(old(symbolUsages), v, v.order[..i])
      {
        var symbol := v.order[i];
        var usages := v.usages[symbol];
        if symbol !in symbolUsages.usages {
          symbolUsages := symbolUsages.(order := symbolUsages.order + [symbol], usages := symbolUsages.usages[symbol := []]);
        }
        symbolUsages := symbolUsages.(usages := symbolUsages.usages[symbol := symbolUsages.usages[symbol] + usages]);
        assert v.order[..i + 1][..i] == v.order[..i];
      }
      assert v.order[..|v.order|] == v.order;
    }

    /** `find_symbol`: the usages recorded for the name, `[]` for an unknown name. */
    function FindSymbol(symbolName: string): (r: seq<Usage>)
      reads this
      requires Valid()
      ensures symbolName in symbolUsages.order ==> r == symbolUsages.usages[symbolName]
      ensures symbolName !in symbolUsages.order ==> r == []
    {
      symbolUsages.Get(symbolName)
    }

    /** `build_dependency_graph`: one node per defined symbol, then the edges. */
    method BuildDependencyGraph() returns (graph: Graph)
      ensures graph == DependencyGraph(symbolUsages)
    {
      var nodes := AddNodes(symbolUsages);
      graph := AddEdges(symbolUsages, nodes);
    }

    /** `analyze_impact` */
    function AnalyzeImpact(symbolName: string): (r: Impact)
      reads this
      requires Valid()
      ensures r.symbol == symbolName
      ensures r.totalUsages == |FindSymbol(symbolName)|
      ensures forall f :: f in r.affectedFiles <==> exists u :: u in FindSymbol(symbolName) && u.filePath == f
      ensures r.fileCount == |r.affectedFiles| <= r.totalUsages
      ensures r.breakdown.imports + r.breakdown.calls + r.breakdown.references + r.breakdown.definitions == r.totalUsages
      ensures r.dependencies.Some? <==> HasDefinition(symbolUsages, symbolName)
      ensures r.dependents.Some? <==> HasDefinition(symbolUsages, symbolName)
      ensures r.dependencies.Some? ==> forall x :: x in r.dependencies.value <==> Edge(symbolUsages, symbolName, x)
      ensures r.dependents.Some? ==> forall x :: x in r.dependents.value <==> Edge(symbolUsages, x, symbolName)
    {
      var usages := FindSymbol(symbolName);
      var graph := DependencyGraph(symbolUsages);
      var affectedFiles := FilesOf(usages);
      BreakdownSum(usages);
      FilesBound(usages);
      DependencyGraphNodes(symbolUsages, symbolName);
      var inGraph := symbolName in graph.nodes;
      assert inGraph ==> forall x :: x in graph.nodes[symbolName].dependencies <==> Edge(symbolUsages, symbolName, x) by {
        forall x { DependencyGraphEdges(symbolUsages, symbolName, x); }
      }
      assert inGraph ==> forall x :: x in graph.nodes[symbolName].dependents <==> Edge(symbolUsages, x, symbolName) by {
        forall x { DependencyGraphEdges(symbolUsages, x, symbolName); }
      }
      Impact(
        symbolName,
        |usages|,
        affectedFiles,
        |affectedFiles|,
        UsageBreakdown(CountKind(usages, Import), CountKind(usages, Call), CountKind(usages, Reference), CountKind(usages, Definition)),
        if inGraph then Some(graph.nodes[symbolName].dependencies) else None,
        if inGraph then Some(graph.nodes[symbolName].dependents) else None)
    }

    /** `grep_search`: the command, and the results parsed from its output
        (`None` when running it raises). */
    method GrepSearch(pattern: string, filePattern: string, run: Option<string>) returns (command: seq<string>, results: seq<GrepMatch>)
      ensures command == ["grep", "-rn", "--include", filePattern, pattern, rootDirectory]
      ensures results == if run.Some? then GrepOutput(run.value) else []
    {
      command := ["grep", "-rn", "--include", filePattern, pattern, rootDirectory];
      results := [];
      if run.Some? {
        results := ParseGrepOutput(run.value);
      }
    }

    /** `git_blame`: the command, and the fields parsed from its output
        (`None` when it fails or exits non-zero). */
    method GitBlame(filePath: string, lineNumber: int, run: Option<string>) returns (command: seq<string>, info: Option<BlameInfo>)
      ensures command == ["git", "blame", "-L", IntToString(lineNumber) + "," + IntToString(lineNumber), "--porcelain", filePath]
      ensures info == if run.Some? then Some(BlameOf(run.value)) else None
    {
      command := ["git", "blame", "-L", IntToString(lineNumber) + "," + IntToString(lineNumber), "--porcelain", filePath];
      info := None;
      if run.Some? {
        var parsed := ParseBlame(run.value);
        info := Some(parsed);
      }
    }
  }
}
