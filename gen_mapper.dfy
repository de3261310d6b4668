/** The mapper parser of the code generator: it turns the element tree of a
    `*-mapper.xml` file into the dynamic-SQL syntax tree (`SqlElement`) and
    collects the statements of a file into a `Mapper` with one table per
    kind of statement.

    The XML tree is given as `Node` values; reading and parsing the file
    text is not modelled. A missing required attribute, which the source
    turns into a panic by unwrapping, is a `Failure` here. */
module GenMapper {
  import opened Base

  /** An XML node: an element with its attributes and children, a text
      node, or any other node (comment, processing instruction). */
  datatype Node =
    | Elem(name: string, attrs: map<string, string>, children: seq<Node>)
    | Text(text: string)
    | Other

  datatype YoResult = YoResult(column: string, property: string, yoType: string)

  datatype YoResultMap = YoResultMap(id: string, type_: string, results: seq<YoResult>)

  datatype YoSql = YoSql(id: string, text: string)

  /** The dynamic-SQL syntax tree. */
  datatype SqlElement =
    | YoInclude(refid: string)
    | YoText(text: string)
    | YoTrim(prefix: string, suffix: string, suffixOverrides: string, prefixOverrides: string,
             content: seq<SqlElement>)
    | YoIf(test: string, content: seq<SqlElement>)

  datatype YoInsert = YoInsert(id: string, parameterType: string, content: seq<SqlElement>)
  datatype YoUpdate = YoUpdate(id: string, parameterType: string, content: seq<SqlElement>)
  datatype YoDelete = YoDelete(id: string, parameterType: string, content: seq<SqlElement>)
  datatype YoSelect = YoSelect(id: string, parameterType: string, resultMap: string, content: seq<SqlElement>)

  datatype Mapper = Mapper(
    namespace: string,
    resultMaps: map<string, YoResultMap>,
    typeMaps: map<string, YoResultMap>,
    sqls: map<string, YoSql>,
    inserts: map<string, YoInsert>,
    updates: map<string, YoUpdate>,
    deletes: map<string, YoDelete>,
    selects: map<string, YoSelect>)

  /** Mapper::new. */
  const EmptyMapper: Mapper := Mapper("", map[], map[], map[], map[], map[], map[], map[])

  predicate IsElem(n: Node, name: string)
  {
    n.Elem? && n.name == name
  }

  /** The value of an attribute, if the node is an element that has it. */
  function Attr(n: Node, name: string): (r: Option<string>)
    ensures r.Some? <==> n.Elem? && name in n.attrs
    ensures r.Some? ==> r.value == n.attrs[name]
  {
    if n.Elem? && name in n.attrs then Some(n.attrs[name]) else None
  }

  /** An optional attribute defaulting to the empty string. */
  function AttrOr(n: Node, name: string): string
  {
    if n.Elem? && name in n.attrs then n.attrs[name] else ""
  }

  function Missing(attr: string, elem: string): string
  {
    "missing attribute " + attr + " on <" + elem + ">"
  }

  /** The element children, in document order (minidom's `children()`). */
  function ElementChildren(nodes: seq<Node>): (r: seq<Node>)
    ensures |r| <= |nodes|
    ensures forall k :: 0 <= k < |r| ==> r[k].Elem?
  {
    if nodes == [] then []
    else
      var init := ElementChildren(nodes[..|nodes| - 1]);
      if nodes[|nodes| - 1].Elem? then init + [nodes[|nodes| - 1]] else init
  }

  // ---------------------------------------------------------------------
  // parse_sql_elements

  /** What parse_sql_elements makes of a list of child nodes, one child at a
      time: text becomes YoText; include, if and trim elements become their
      syntax nodes (if and trim with their own children parsed the same
      way); everything else is skipped. The first missing required
      attribute fails the whole list. */
  function SqlContent(nodes: seq<Node>): Result<seq<SqlElement>>
  {
    if nodes == [] then Success([])
    else
      match SqlContent(nodes[..|nodes| - 1])
      case Failure(e) => Failure(e)
      case Success(init) =>
        var c := nodes[|nodes| - 1];
        match c
        case Text(t) => Success(init + [YoText(t)])
        case Other => Success(init)
        case Elem(name, attrs, kids) =>
          if name == "include" then
            if "refid" in attrs then Success(init + [YoInclude(attrs["refid"])])
            else Failure(Missing("refid", "include"))
          else if name == "if" then
            if "test" !in attrs then Failure(Missing("test", "if"))
            else
              match SqlContent(kids)
              case Failure(e) => Failure(e)
              case Success(content) => Success(init + [YoIf(attrs["test"], content)])
          else if name == "trim" then
            match SqlContent(kids)
            case Failure(e) => Failure(e)
            case Success(content) =>
              Success(init + [YoTrim(AttrOr(c, "prefix"), AttrOr(c, "suffix"),
                                     AttrOr(c, "suffixOverrides"), AttrOr(c, "prefixOverrides"),
                                     content)])
          else Success(init)
  }

  /** parse_sql_elements: the loop over a node's children that pushes one
      syntax node per recognised child, recursing into if and trim. */
  method ParseSqlElements(node: Node) returns (r: Result<seq<SqlElement>>)
    requires node.Elem?
    ensures r == SqlContent(node.children)
    decreases node
  {
    var nodes := node.children;
    var elements: seq<SqlElement> := [];
    for i := 0 to |nodes|
      invariant SqlContent(nodes[..i]) == Success(elements)
    {
      assert nodes[..i + 1][..i] == nodes[..i];
      var child := nodes[i];
      match child {
        case Elem(name, attrs, kids) =>
          if name == "include" {
            if "refid" !in attrs {
              assert SqlContent(nodes[..i + 1]).Failure?;
              r := Failure(Missing("refid", "include"));
              SqlContentFailurePropagates(nodes, i + 1);
              return;
            }
            elements := elements + [YoInclude(attrs["refid"])];
          } else if name == "if" {
            if "test" !in attrs {
              r := Failure(Missing("test", "if"));
              SqlContentFailurePropagates(nodes, i + 1);
              return;
            }
            var contents := ParseSqlElements(child);
            if contents.Failure? {
              r := Failure(contents.error);
              SqlContentFailurePropagates(nodes, i + 1);
              return;
            }
            elements := elements + [YoIf(attrs["test"], contents.value)];
          } else if name == "trim" {
            var prefix := AttrOr(child, "prefix");
            var suffix := AttrOr(child, "suffix");
            var suffixOverrides := AttrOr(child, "suffixOverrides");
            var prefixOverrides := AttrOr(child, "prefixOverrides");
            var contents := ParseSqlElements(child);
            if contents.Failure? {
              r := Failure(contents.error);
              SqlContentFailurePropagates(nodes, i + 1);
              return;
            }
            elements := elements + [YoTrim(prefix, suffix, suffixOverrides, prefixOverrides, contents.value)];
          }
        case Text(t) =>
          elements := elements + [YoText(t)];
        case Other =>
      }
    }
    assert nodes[..|nodes|] == nodes;
    r := Success(elements);
  }

  /** A failure on a prefix of the children is the failure of the whole list. */
  lemma {:induction false} SqlContentFailurePropagates(nodes: seq<Node>, i: nat)
    requires i <= |nodes| && SqlContent(nodes[..i]).Failure?
    ensures SqlContent(nodes) == SqlContent(nodes[..i])
    decreases |nodes| - i
  {
    if i < |nodes| {
      assert nodes[..i + 1][..i] == nodes[..i];
      SqlContentFailurePropagates(nodes, i + 1);
    } else {
      assert nodes[..i] == nodes;
    }
  }

  /** Every include has a refid and every if a test, at any depth below if
      and trim. */
  predicate AllOk(nodes: seq<Node>)
    decreases nodes
  {
    forall k :: 0 <= k < |nodes| ==> NodeOk(nodes[k])
  }

  predicate NodeOk(n: Node)
    decreases n
  {
    match n
    case Elem(name, attrs, kids) =>
      (name == "include" ==> "refid" in attrs) &&
      (name == "if" ==> "test" in attrs && AllOk(kids)) &&
      (name == "trim" ==> AllOk(kids))
    case _ => true
  }

  /** The children parse_sql_elements keeps: text nodes and include, if and
      trim elements, in document order. */
  predicate Kept(n: Node)
  {
    n.Text? || IsElem(n, "include") || IsElem(n, "if") || IsElem(n, "trim")
  }

  function KeptNodes(nodes: seq<Node>): (r: seq<Node>)
    ensures forall k :: 0 <= k < |r| ==> Kept(r[k])
  {
    if nodes == [] then []
    else
      var init := KeptNodes(nodes[..|nodes| - 1]);
      if Kept(nodes[|nodes| - 1]) then init + [nodes[|nodes| - 1]] else init
  }

  /** The syntax node a kept child becomes. */
  predicate Corresponds(n: Node, e: SqlElement)
  {
    match n
    case Text(t) => e == YoText(t)
    case Other => false
    case Elem(name, attrs, kids) =>
      if name == "include" then "refid" in attrs && e == YoInclude(attrs["refid"])
      else if name == "if" then
        "test" in attrs && e.YoIf? && e.test == attrs["test"] && SqlContent(kids) == Success(e.content)
      else if name == "trim" then
        e.YoTrim? && e.prefix == AttrOr(n, "prefix") && e.suffix == AttrOr(n, "suffix") &&
        e.suffixOverrides == AttrOr(n, "suffixOverrides") &&
        e.prefixOverrides == AttrOr(n, "prefixOverrides") &&
        SqlContent(kids) == Success(e.content)
      else false
  }

  /** parse_sql_elements succeeds exactly when no include lacks its refid and
      no if lacks its test, at any depth. It then yields one syntax node per
      kept child, in document order: text as YoText, include as YoInclude,
      if and trim with their parsed children and trim's attributes
      defaulting to "". */
  lemma {:induction false} SqlContentMeaning(nodes: seq<Node>)
    ensures SqlContent(nodes).Success? <==> AllOk(nodes)
    ensures SqlContent(nodes).Success? ==>
      var r := SqlContent(nodes).value;
      |r| == |KeptNodes(nodes)| &&
      forall k :: 0 <= k < |r| ==> Corresponds(KeptNodes(nodes)[k], r[k])
    decreases nodes
  {
    if nodes != [] {
      var init := nodes[..|nodes| - 1];
      var c := nodes[|nodes| - 1];
      SqlContentMeaning(init);
      assert AllOk(nodes) <==> AllOk(init) && NodeOk(c) by {
        if AllOk(init) && NodeOk(c) {
          forall k | 0 <= k < |nodes|
            ensures NodeOk(nodes[k])
          {
            if k < |nodes| - 1 {
              assert nodes[k] == init[k];
            }
          }
        }
        if AllOk(nodes) {
          forall k | 0 <= k < |init|
            ensures NodeOk(init[k])
          {
            assert init[k] == nodes[k];
          }
        }
      }
      if c.Elem? {
        SqlContentMeaning(c.children);
      }
    }
  }

  // ---------------------------------------------------------------------
  // parse_sql

  function TextOf(e: SqlElement): string
  {
    if e.YoText? then e.text else ""
  }

  /** A `<sql>` fragment's text: the texts of the direct YoText children
      joined with nothing between them. */
  function SqlText(elems: seq<SqlElement>): string
  {
    Concat(seq(|elems|, k requires 0 <= k < |elems| => TextOf(elems[k])))
  }

  /** Only direct text counts: appending a text adds it, appending an
      include, if or trim adds nothing, whatever it contains. */
  lemma SqlTextAppend(elems: seq<SqlElement>, e: SqlElement)
    ensures e.YoText? ==> SqlText(elems + [e]) == SqlText(elems) + e.text
    ensures !e.YoText? ==> SqlText(elems + [e]) == SqlText(elems)
  {
    var parts := seq(|elems|, k requires 0 <= k < |elems| => TextOf(elems[k]));
    var parts' := seq(|elems + [e]|, k requires 0 <= k < |elems + [e]| => TextOf((elems + [e])[k]));
    assert parts' == parts + [TextOf(e)];
    ConcatAppend(parts, [TextOf(e)]);
    assert Concat([TextOf(e)]) == TextOf(e) + Concat([]);
  }

  /** parse_sql: the id is required, then the children are parsed and the
      direct texts concatenated. */
  function ParseSql(node: Node): (r: Result<YoSql>)
    ensures r.Success? <==> Attr(node, "id").Some? && AllOk(node.children)
    ensures r.Success? ==>
      r.value.id == node.attrs["id"] && SqlContent(node.children).Success? &&
      r.value.text == SqlText(SqlContent(node.children).value)
  {
    SqlContentMeaning(if node.Elem? then node.children else []);
    if !(node.Elem? && "id" in node.attrs) then Failure(Missing("id", "sql"))
    else
      match SqlContent(node.children)
      case Failure(e) => Failure(e)
      case Success(contents) => Success(YoSql(node.attrs["id"], SqlText(contents)))
  }

  // ---------------------------------------------------------------------
  // parse_result_map

  /** One `<result>` element, or None if it lacks an attribute. */
  function ResultOf(n: Node): Option<YoResult>
  {
    if n.Elem? && "column" in n.attrs && "property" in n.attrs && "yo_type" in n.attrs
    then Some(YoResult(n.attrs["column"], n.attrs["property"], n.attrs["yo_type"]))
    else None
  }

  /** The results collected from the element children named "result". */
  function ResultsOf(nodes: seq<Node>): Result<seq<YoResult>>
  {
    if nodes == [] then Success([])
    else
      match ResultsOf(nodes[..|nodes| - 1])
      case Failure(e) => Failure(e)
      case Success(init) =>
        var c := nodes[|nodes| - 1];
        if !IsElem(c, "result") then Success(init)
        else if ResultOf(c).None? then Failure(Missing("column, property or yo_type", "result"))
        else Success(init + [ResultOf(c).value])
  }

  function ResultElements(nodes: seq<Node>): (r: seq<Node>)
    ensures forall k :: 0 <= k < |r| ==> IsElem(r[k], "result")
  {
    if nodes == [] then []
    else
      var init := ResultElements(nodes[..|nodes| - 1]);
      if IsElem(nodes[|nodes| - 1], "result") then init + [nodes[|nodes| - 1]] else init
  }

  /** The results are exactly the `<result>` children in order, each with its
      three attributes, and collecting them fails exactly when one of them
      lacks an attribute. */
  lemma {:induction false} ResultsOfMeaning(nodes: seq<Node>)
    ensures ResultsOf(nodes).Success? <==>
      forall k :: 0 <= k < |ResultElements(nodes)| ==> ResultOf(ResultElements(nodes)[k]).Some?
    ensures ResultsOf(nodes).Success? ==>
      var r := ResultsOf(nodes).value;
      |r| == |ResultElements(nodes)| &&
      forall k :: 0 <= k < |r| ==> Some(r[k]) == ResultOf(ResultElements(nodes)[k])
    decreases |nodes|
  {
    if nodes != [] {
      var init := nodes[..|nodes| - 1];
      ResultsOfMeaning(init);
      var re, ri := ResultElements(nodes), ResultElements(init);
      if IsElem(nodes[|nodes| - 1], "result") {
        assert re == ri + [nodes[|nodes| - 1]];
        assert forall k :: 0 <= k < |ri| ==> re[k] == ri[k];
        assert re[|ri|] == nodes[|nodes| - 1];
        if ResultsOf(nodes).Success? {
          assert ResultOf(nodes[|nodes| - 1]).Some?;
        }
      } else {
        assert re == ri;
      }
    }
  }

  /** parse_result_map: id and type are required, then the loop over the
      element children collects the "result" ones. */
  method ParseResultMap(node: Node) returns (r: Result<YoResultMap>)
    ensures r == ResultMapOf(node)
  {
    if !(node.Elem? && "id" in node.attrs) {
      return Failure(Missing("id", "resultMap"));
    }
    if !("type" in node.attrs) {
      return Failure(Missing("type", "resultMap"));
    }
    var children := node.children;
    var results: seq<YoResult> := [];
    for i := 0 to |children|
      invariant ResultsOf(children[..i]) == Success(results)
    {
      assert children[..i + 1][..i] == children[..i];
      var child := children[i];
      if child.Elem? && child.name == "result" {
        var res := ResultOf(child);
        if res.None? {
          ResultsFailurePropagates(children, i + 1);
          return Failure(Missing("column, property or yo_type", "result"));
        }
        results := results + [res.value];
      }
    }
    assert children[..|children|] == children;
    r := Success(YoResultMap(node.attrs["id"], node.attrs["type"], results));
  }

  lemma {:induction false} ResultsFailurePropagates(nodes: seq<Node>, i: nat)
    requires i <= |nodes| && ResultsOf(nodes[..i]).Failure?
    ensures ResultsOf(nodes) == ResultsOf(nodes[..i])
    decreases |nodes| - i
  {
    if i < |nodes| {
      assert nodes[..i + 1][..i] == nodes[..i];
      ResultsFailurePropagates(nodes, i + 1);
    } else {
      assert nodes[..i] == nodes;
    }
  }

  function ResultMapOf(node: Node): Result<YoResultMap>
  {
    if !(node.Elem? && "id" in node.attrs) then Failure(Missing("id", "resultMap"))
    else if "type" !in node.attrs then Failure(Missing("type", "resultMap"))
    else
      match ResultsOf(node.children)
      case Failure(e) => Failure(e)
      case Success(results) => Success(YoResultMap(node.attrs["id"], node.attrs["type"], results))
  }

  // ---------------------------------------------------------------------
  // parse_insert, parse_update, parse_delete, parse_select

  /** The shared requirement of the four statement parsers. */
  predicate StatementOk(node: Node)
  {
    node.Elem? && "id" in node.attrs && "parameterType" in node.attrs && AllOk(node.children)
  }

  function ParseInsert(node: Node): (r: Result<YoInsert>)
    ensures r.Success? <==> StatementOk(node)
    ensures r.Success? ==>
      r.value.id == node.attrs["id"] && r.value.parameterType == node.attrs["parameterType"] &&
      Success(r.value.content) == SqlContent(node.children)
  {
    SqlContentMeaning(if node.Elem? then node.children else []);
    if !(node.Elem? && "id" in node.attrs) then Failure(Missing("id", "insert"))
    else if "parameterType" !in node.attrs then Failure(Missing("parameterType", "insert"))
    else
      match SqlContent(node.children)
      case Failure(e) => Failure(e)
      case Success(c) => Success(YoInsert(node.attrs["id"], node.attrs["parameterType"], c))
  }

  function ParseUpdate(node: Node): (r: Result<YoUpdate>)
    ensures r.Success? <==> StatementOk(node)
    ensures r.Success? ==>
      r.value.id == node.attrs["id"] && r.value.parameterType == node.attrs["parameterType"] &&
      Success(r.value.content) == SqlContent(node.children)
  {
    SqlContentMeaning(if node.Elem? then node.children else []);
    if !(node.Elem? && "id" in node.attrs) then Failure(Missing("id", "update"))
    else if "parameterType" !in node.attrs then Failure(Missing("parameterType", "update"))
    else
      match SqlContent(node.children)
      case Failure(e) => Failure(e)
      case Success(c) => Success(YoUpdate(node.attrs["id"], node.attrs["parameterType"], c))
  }

  function ParseDelete(node: Node): (r: Result<YoDelete>)
    ensures r.Success? <==> StatementOk(node)
    ensures r.Success? ==>
      r.value.id == node.attrs["id"] && r.value.parameterType == node.attrs["parameterType"] &&
      Success(r.value.content) == SqlContent(node.children)
  {
    SqlContentMeaning(if node.Elem? then node.children else []);
    if !(node.Elem? && "id" in node.attrs) then Failure(Missing("id", "delete"))
    else if "parameterType" !in node.attrs then Failure(Missing("parameterType", "delete"))
    else
      match SqlContent(node.children)
      case Failure(e) => Failure(e)
      case Success(c) => Success(YoDelete(node.attrs["id"], node.attrs["parameterType"], c))
  }

  /** parse_select also requires resultMap, checked before the children. */
  function ParseSelect(node: Node): (r: Result<YoSelect>)
    ensures r.Success? <==> StatementOk(node) && "resultMap" in node.attrs
    ensures r.Success? ==>
      r.value.id == node.attrs["id"] && r.value.parameterType == node.attrs["parameterType"] &&
      r.value.resultMap == node.attrs["resultMap"] &&
      Success(r.value.content) == SqlContent(node.children)
  {
    SqlContentMeaning(if node.Elem? then node.children else []);
    if !(node.Elem? && "id" in node.attrs) then Failure(Missing("id", "select"))
    else if "parameterType" !in node.attrs then Failure(Missing("parameterType", "select"))
    else if "resultMap" !in node.attrs then Failure(Missing("resultMap", "select"))
    else
      match SqlContent(node.children)
      case Failure(e) => Failure(e)
      case Success(c) => Success(YoSelect(node.attrs["id"], node.attrs["parameterType"], node.attrs["resultMap"], c))
  }

  // ---------------------------------------------------------------------
  // parse_mapper_file

  /** One top-level child added to the mapper; unknown names change nothing. */
  function AddChild(m: Mapper, c: Node): Result<Mapper>
  {
    if IsElem(c, "resultMap") then
      match ResultMapOf(c)
      case Failure(e) => Failure(e)
      case Success(rm) => Success(m.(resultMaps := m.resultMaps[rm.id := rm], typeMaps := m.typeMaps[rm.type_ := rm]))
    else if IsElem(c, "sql") then
      match ParseSql(c)
      case Failure(e) => Failure(e)
      case Success(s) => Success(m.(sqls := m.sqls[s.id := s]))
    else if IsElem(c, "insert") then
      match ParseInsert(c)
      case Failure(e) => Failure(e)
      case Success(s) => Success(m.(inserts := m.inserts[s.id := s]))
    else if IsElem(c, "update") then
      match ParseUpdate(c)
      case Failure(e) => Failure(e)
      case Success(s) => Success(m.(updates := m.updates[s.id := s]))
    else if IsElem(c, "delete") then
      match ParseDelete(c)
      case Failure(e) => Failure(e)
      case Success(s) => Success(m.(deletes := m.deletes[s.id := s]))
    else if IsElem(c, "select") then
      match ParseSelect(c)
      case Failure(e) => Failure(e)
      case Success(s) => Success(m.(selects := m.selects[s.id := s]))
    else Success(m)
  }

  /** The children added one after the other; the first failure aborts. */
  function AddChildren(m: Mapper, cs: seq<Node>): Result<Mapper>
  {
    if cs == [] then Success(m)
    else
      match AddChildren(m, cs[..|cs| - 1])
      case Failure(e) => Failure(e)
      case Success(m') => AddChild(m', cs[|cs| - 1])
  }

  /** What parse_mapper_file yields for a root element. */
  function MapperOf(root: Node): Result<Mapper>
  {
    var ns := AttrOr(root, "namespace");
    AddChildren(EmptyMapper.(namespace := ns), ElementChildren(if root.Elem? then root.children else []))
  }

  /** parse_mapper_file: the namespace, then every element child of the root
      added in document order. */
  method ParseMapperFile(root: Node) returns (r: Result<Mapper>)
    ensures r == MapperOf(root)
  {
    var mapper := EmptyMapper;
    mapper := mapper.(namespace := AttrOr(root, "namespace"));
    var children := ElementChildren(if root.Elem? then root.children else []);
    ghost var m0 := mapper;
    for i := 0 to |children|
      invariant AddChildren(m0, children[..i]) == Success(mapper)
    {
      assert children[..i + 1][..i] == children[..i];
      var next := AddChild(mapper, children[i]);
      if next.Failure? {
        AddChildrenFailurePropagates(m0, children, i + 1);
        return next;
      }
      mapper := next.value;
    }
    assert children[..|children|] == children;
    r := Success(mapper);
  }

  lemma {:induction false} AddChildrenFailurePropagates(m: Mapper, cs: seq<Node>, i: nat)
    requires i <= |cs| && AddChildren(m, cs[..i]).Failure?
    ensures AddChildren(m, cs) == AddChildren(m, cs[..i])
    decreases |cs| - i
  {
    if i < |cs| {
      assert cs[..i + 1][..i] == cs[..i];
      AddChildrenFailurePropagates(m, cs, i + 1);
    } else {
      assert cs[..i] == cs;
    }
  }

  /** The namespace is the root's attribute, or "" without one. */
  lemma MapperNamespace(root: Node)
    requires MapperOf(root).Success?
    ensures MapperOf(root).value.namespace == (if root.Elem? && "namespace" in root.attrs then root.attrs["namespace"] else "")
  {
    AddChildrenKeepsNamespace(EmptyMapper.(namespace := AttrOr(root, "namespace")),
      ElementChildren(if root.Elem? then root.children else []));
  }

  lemma {:induction false} AddChildrenKeepsNamespace(m: Mapper, cs: seq<Node>)
    requires AddChildren(m, cs).Success?
    ensures AddChildren(m, cs).value.namespace == m.namespace
    decreases |cs|
  {
    if cs != [] {
      var init := cs[..|cs| - 1];
      AddChildrenKeepsNamespace(m, init);
      AddChildKeepsNamespace(AddChildren(m, init).value, cs[|cs| - 1]);
    }
  }

  lemma AddChildKeepsNamespace(m: Mapper, c: Node)
    requires AddChild(m, c).Success?
    ensures AddChild(m, c).value.namespace == m.namespace
  {
    if IsElem(c, "resultMap") {
      assert ResultMapOf(c).Success?;
    } else if IsElem(c, "sql") {
      assert ParseSql(c).Success?;
    } else if IsElem(c, "insert") {
      assert ParseInsert(c).Success?;
    } else if IsElem(c, "update") {
      assert ParseUpdate(c).Success?;
    } else if IsElem(c, "delete") {
      assert ParseDelete(c).Success?;
    } else if IsElem(c, "select") {
      assert ParseSelect(c).Success?;
    }
  }

  /** A mapper file parses exactly when every child of a known kind parses. */
  predicate KnownKind(c: Node)
  {
    IsElem(c, "resultMap") || IsElem(c, "sql") || IsElem(c, "insert") ||
    IsElem(c, "update") || IsElem(c, "delete") || IsElem(c, "select")
  }

  predicate ChildOk(c: Node)
  {
    AddChild(EmptyMapper, c).Success?
  }

  lemma AddChildSuccessIndependent(m: Mapper, c: Node)
    ensures AddChild(m, c).Success? <==> ChildOk(c)
    ensures !KnownKind(c) ==> AddChild(m, c) == Success(m)
  {
  }

  lemma {:induction false} AddChildrenSucceeds(m: Mapper, cs: seq<Node>)
    ensures AddChildren(m, cs).Success? <==> forall k :: 0 <= k < |cs| ==> ChildOk(cs[k])
    decreases |cs|
  {
    if cs != [] {
      var init := cs[..|cs| - 1];
      AddChildrenSucceeds(m, init);
      if AddChildren(m, init).Success? {
        AddChildSuccessIndependent(AddChildren(m, init).value, cs[|cs| - 1]);
      }
      assert forall k :: 0 <= k < |init| ==> init[k] == cs[k];
    }
  }

  // A table of the mapper, described on its own: the element children of
  // one kind that parse, each stored under its key, a later one replacing
  // an earlier one with the same key.

  /** Whether `c` is a child of the kind `name` that parses with `parse`. */
  predicate Hit<V>(c: Node, name: string, parse: Node -> Result<V>)
  {
    IsElem(c, name) && parse(c).Success?
  }

  function TableOf<V>(cs: seq<Node>, name: string, parse: Node -> Result<V>, key: V -> string): map<string, V>
  {
    if cs == [] then map[]
    else
      var t := TableOf(cs[..|cs| - 1], name, parse, key);
      var c := cs[|cs| - 1];
      if Hit(c, name, parse) then t[key(parse(c).value) := parse(c).value] else t
  }

  /** Every key of a table comes from some child of its kind. */
  lemma {:induction false} TableOfKeys<V>(cs: seq<Node>, name: string, parse: Node -> Result<V>, key: V -> string, id: string)
    requires id in TableOf(cs, name, parse, key)
    ensures exists k :: 0 <= k < |cs| && Hit(cs[k], name, parse) && key(parse(cs[k]).value) == id
    decreases |cs|
  {
    var init := cs[..|cs| - 1];
    var c := cs[|cs| - 1];
    if Hit(c, name, parse) && key(parse(c).value) == id {
      assert Hit(cs[|cs| - 1], name, parse);
    } else {
      TableOfKeys(init, name, parse, key, id);
      var k :| 0 <= k < |init| && Hit(init[k], name, parse) && key(parse(init[k]).value) == id;
      assert cs[k] == init[k];
    }
  }

  /** The entry under a key is the last child of the kind with that key. */
  lemma {:induction false} TableOfLastWins<V>(cs: seq<Node>, name: string, parse: Node -> Result<V>, key: V -> string, k: nat)
    requires k < |cs| && Hit(cs[k], name, parse)
    requires forall j :: k < j < |cs| && Hit(cs[j], name, parse) ==> key(parse(cs[j]).value) != key(parse(cs[k]).value)
    ensures key(parse(cs[k]).value) in TableOf(cs, name, parse, key)
    ensures TableOf(cs, name, parse, key)[key(parse(cs[k]).value)] == parse(cs[k]).value
    decreases |cs|
  {
    if k < |cs| - 1 {
      var init := cs[..|cs| - 1];
      assert init[k] == cs[k];
      forall j | k < j < |init| && Hit(init[j], name, parse)
        ensures key(parse(init[j]).value) != key(parse(init[k]).value)
      {
        assert init[j] == cs[j];
      }
      TableOfLastWins(init, name, parse, key, k);
    }
  }

  function InsertId(s: YoInsert): string { s.id }
  function UpdateId(s: YoUpdate): string { s.id }
  function DeleteId(s: YoDelete): string { s.id }
  function SelectId(s: YoSelect): string { s.id }
  function SqlId(s: YoSql): string { s.id }
  function ResultMapId(rm: YoResultMap): string { rm.id }
  function ResultMapType(rm: YoResultMap): string { rm.type_ }

  /** The tables match the per-kind definition: every resultMap under its id
      in result_maps and under its type in type_maps, every sql fragment and
      statement under its id in the table of its kind. */
  predicate TablesOf(m: Mapper, m0: Mapper, cs: seq<Node>)
  {
    m.resultMaps == m0.resultMaps + TableOf(cs, "resultMap", ResultMapOf, ResultMapId) &&
    m.typeMaps == m0.typeMaps + TableOf(cs, "resultMap", ResultMapOf, ResultMapType) &&
    m.sqls == m0.sqls + TableOf(cs, "sql", ParseSql, SqlId) &&
    m.inserts == m0.inserts + TableOf(cs, "insert", ParseInsert, InsertId) &&
    m.updates == m0.updates + TableOf(cs, "update", ParseUpdate, UpdateId) &&
    m.deletes == m0.deletes + TableOf(cs, "delete", ParseDelete, DeleteId) &&
    m.selects == m0.selects + TableOf(cs, "select", ParseSelect, SelectId)
  }

  lemma MapUpdatePlus<K, V>(a: map<K, V>, b: map<K, V>, k: K, v: V)
    ensures (a + b)[k := v] == a + b[k := v]
  {
  }

  /** One child changes at most the table of its kind, by one update. */
  lemma AddChildStep(m: Mapper, c: Node)
    requires AddChild(m, c).Success?
    ensures IsElem(c, "resultMap") ==>
      var v := ResultMapOf(c).value;
      ResultMapOf(c).Success? && AddChild(m, c).value == m.(resultMaps := m.resultMaps[v.id := v], typeMaps := m.typeMaps[v.type_ := v])
    ensures IsElem(c, "sql") ==>
      ParseSql(c).Success? && AddChild(m, c).value == m.(sqls := m.sqls[ParseSql(c).value.id := ParseSql(c).value])
    ensures IsElem(c, "insert") ==>
      ParseInsert(c).Success? && AddChild(m, c).value == m.(inserts := m.inserts[ParseInsert(c).value.id := ParseInsert(c).value])
    ensures IsElem(c, "update") ==>
      ParseUpdate(c).Success? && AddChild(m, c).value == m.(updates := m.updates[ParseUpdate(c).value.id := ParseUpdate(c).value])
    ensures IsElem(c, "delete") ==>
      ParseDelete(c).Success? && AddChild(m, c).value == m.(deletes := m.deletes[ParseDelete(c).value.id := ParseDelete(c).value])
    ensures IsElem(c, "select") ==>
      ParseSelect(c).Success? && AddChild(m, c).value == m.(selects := m.selects[ParseSelect(c).value.id := ParseSelect(c).value])
    ensures !KnownKind(c) ==> AddChild(m, c).value == m
  {
  }

  lemma TableOfSnoc<V>(cs: seq<Node>, c: Node, name: string, parse: Node -> Result<V>, key: V -> string)
    ensures TableOf(cs + [c], name, parse, key) ==
      if Hit(c, name, parse) then TableOf(cs, name, parse, key)[key(parse(c).value) := parse(c).value]
      else TableOf(cs, name, parse, key)
  {
    assert (cs + [c])[..|cs|] == cs;
  }

  /** Adding a child updates a table with its parse exactly when the child
      is of that table's kind (one lemma per table). */
  lemma AddChildResultMaps(m: Mapper, c: Node)
    requires AddChild(m, c).Success?
    ensures AddChild(m, c).value.resultMaps ==
      if Hit(c, "resultMap", ResultMapOf) then m.resultMaps[ResultMapId(ResultMapOf(c).value) := ResultMapOf(c).value] else m.resultMaps
  {
    var m' := AddChild(m, c).value;
    if IsElem(c, "resultMap") {
      var v := ResultMapOf(c).value;
      assert Hit(c, "resultMap", ResultMapOf);
      assert m' == m.(resultMaps := m.resultMaps[v.id := v], typeMaps := m.typeMaps[v.type_ := v]);
    } else {
      assert !Hit(c, "resultMap", ResultMapOf);
      assert m'.resultMaps == m.resultMaps by { AddChildStep(m, c); }
    }
  }

  lemma AddChildTypeMaps(m: Mapper, c: Node)
    requires AddChild(m, c).Success?
    ensures AddChild(m, c).value.typeMaps ==
      if Hit(c, "resultMap", ResultMapOf) then m.typeMaps[ResultMapType(ResultMapOf(c).value) := ResultMapOf(c).value] else m.typeMaps
  {
    var m' := AddChild(m, c).value;
    if IsElem(c, "resultMap") {
      var v := ResultMapOf(c).value;
      assert Hit(c, "resultMap", ResultMapOf);
      assert m' == m.(resultMaps := m.resultMaps[v.id := v], typeMaps := m.typeMaps[v.type_ := v]);
    } else {
      assert !Hit(c, "resultMap", ResultMapOf);
      assert m'.typeMaps == m.typeMaps by { AddChildStep(m, c); }
    }
  }

  lemma AddChildSqls(m: Mapper, c: Node)
    requires AddChild(m, c).Success?
    ensures AddChild(m, c).value.sqls ==
      if Hit(c, "sql", ParseSql) then m.sqls[SqlId(ParseSql(c).value) := ParseSql(c).value] else m.sqls
  {
    var m' := AddChild(m, c).value;
    if IsElem(c, "sql") {
      var v := ParseSql(c).value;
      assert Hit(c, "sql", ParseSql);
      assert m' == m.(sqls := m.sqls[v.id := v]);
    } else {
      assert !Hit(c, "sql", ParseSql);
      assert m'.sqls == m.sqls by { AddChildStep(m, c); }
    }
  }

  lemma AddChildInserts(m: Mapper, c: Node)
    requires AddChild(m, c).Success?
    ensures AddChild(m, c).value.inserts ==
      if Hit(c, "insert", ParseInsert) then m.inserts[InsertId(ParseInsert(c).value) := ParseInsert(c).value] else m.inserts
  {
    var m' := AddChild(m, c).value;
    if IsElem(c, "insert") {
      var v := ParseInsert(c).value;
      assert Hit(c, "insert", ParseInsert);
      assert m' == m.(inserts := m.inserts[v.id := v]);
    } else {
      assert !Hit(c, "insert", ParseInsert);
      assert m'.inserts == m.inserts by { AddChildStep(m, c); }
    }
  }

  lemma AddChildUpdates(m: Mapper, c: Node)
    requires AddChild(m, c).Success?
    ensures AddChild(m, c).value.updates ==
      if Hit(c, "update", ParseUpdate) then m.updates[UpdateId(ParseUpdate(c).value) := ParseUpdate(c).value] else m.updates
  {
    var m' := AddChild(m, c).value;
    if IsElem(c, "update") {
      var v := ParseUpdate(c).value;
      assert Hit(c, "update", ParseUpdate);
      assert m' == m.(updates := m.updates[v.id := v]);
    } else {
      assert !Hit(c, "update", ParseUpdate);
      assert m'.updates == m.updates by { AddChildStep(m, c); }
    }
  }

  lemma AddChildDeletes(m: Mapper, c: Node)
    requires AddChild(m, c).Success?
    ensures AddChild(m, c).value.deletes ==
      if Hit(c, "delete", ParseDelete) then m.deletes[DeleteId(ParseDelete(c).value) := ParseDelete(c).value] else m.deletes
  {
    var m' := AddChild(m, c).value;
    if IsElem(c, "delete") {
      var v := ParseDelete(c).value;
      assert Hit(c, "delete", ParseDelete);
      assert m' == m.(deletes := m.deletes[v.id := v]);
    } else {
      assert !Hit(c, "delete", ParseDelete);
      assert m'.deletes == m.deletes by { AddChildStep(m, c); }
    }
  }

  lemma AddChildSelects(m: Mapper, c: Node)
    requires AddChild(m, c).Success?
    ensures AddChild(m, c).value.selects ==
      if Hit(c, "select", ParseSelect) then m.selects[SelectId(ParseSelect(c).value) := ParseSelect(c).value] else m.selects
  {
    var m' := AddChild(m, c).value;
    if IsElem(c, "select") {
      var v := ParseSelect(c).value;
      assert Hit(c, "select", ParseSelect);
      assert m' == m.(selects := m.selects[v.id := v]);
    } else {
      assert !Hit(c, "select", ParseSelect);
      assert m'.selects == m.selects by { AddChildStep(m, c); }
    }
  }

  /** One table keeps matching its definition when a child is added. */
  lemma TableStep<V>(t0: map<string, V>, t: map<string, V>, t': map<string, V>, cs: seq<Node>, c: Node,
                     name: string, parse: Node -> Result<V>, key: V -> string)
    requires t == t0 + TableOf(cs, name, parse, key)
    requires t' == if Hit(c, name, parse) then t[key(parse(c).value) := parse(c).value] else t
    ensures t' == t0 + TableOf(cs + [c], name, parse, key)
  {
    TableOfSnoc(cs, c, name, parse, key);
    if Hit(c, name, parse) {
      MapUpdatePlus(t0, TableOf(cs, name, parse, key), key(parse(c).value), parse(c).value);
    }
  }

  /** Adding a child keeps the tables matching the per-kind definition. */
  lemma TablesStep(m0: Mapper, cs: seq<Node>, m: Mapper, c: Node)
    requires TablesOf(m, m0, cs) && AddChild(m, c).Success?
    ensures TablesOf(AddChild(m, c).value, m0, cs + [c])
  {
    AddChildResultMaps(m, c);
    AddChildTypeMaps(m, c);
    AddChildSqls(m, c);
    AddChildInserts(m, c);
    AddChildUpdates(m, c);
    AddChildDeletes(m, c);
    AddChildSelects(m, c);
    var m' := AddChild(m, c).value;
    TableStep(m0.resultMaps, m.resultMaps, m'.resultMaps, cs, c, "resultMap", ResultMapOf, ResultMapId);
    TableStep(m0.typeMaps, m.typeMaps, m'.typeMaps, cs, c, "resultMap", ResultMapOf, ResultMapType);
    TableStep(m0.sqls, m.sqls, m'.sqls, cs, c, "sql", ParseSql, SqlId);
    TableStep(m0.inserts, m.inserts, m'.inserts, cs, c, "insert", ParseInsert, InsertId);
    TableStep(m0.updates, m.updates, m'.updates, cs, c, "update", ParseUpdate, UpdateId);
    TableStep(m0.deletes, m.deletes, m'.deletes, cs, c, "delete", ParseDelete, DeleteId);
    TableStep(m0.selects, m.selects, m'.selects, cs, c, "select", ParseSelect, SelectId);
  }

  lemma TableEmpty<V>(t0: map<string, V>, name: string, parse: Node -> Result<V>, key: V -> string)
    ensures t0 + TableOf([], name, parse, key) == t0
  {
    assert TableOf([], name, parse, key) == map[];
    assert t0 + map[] == t0;
  }

  lemma TablesEmpty(m0: Mapper)
    ensures TablesOf(m0, m0, [])
  {
    TableEmpty(m0.resultMaps, "resultMap", ResultMapOf, ResultMapId);
    TableEmpty(m0.typeMaps, "resultMap", ResultMapOf, ResultMapType);
    TableEmpty(m0.sqls, "sql", ParseSql, SqlId);
    TableEmpty(m0.inserts, "insert", ParseInsert, InsertId);
    TableEmpty(m0.updates, "update", ParseUpdate, UpdateId);
    TableEmpty(m0.deletes, "delete", ParseDelete, DeleteId);
    TableEmpty(m0.selects, "select", ParseSelect, SelectId);
  }

  lemma {:induction false} AddChildrenTables(m0: Mapper, cs: seq<Node>)
    requires AddChildren(m0, cs).Success?
    ensures TablesOf(AddChildren(m0, cs).value, m0, cs)
    decreases |cs|
  {
    if cs == [] {
      TablesEmpty(m0);
    } else {
      var init := cs[..|cs| - 1];
      AddChildrenTables(m0, init);
      assert init + [cs[|cs| - 1]] == cs;
      TablesStep(m0, init, AddChildren(m0, init).value, cs[|cs| - 1]);
    }
  }

  /** The tables of a parsed mapper file, kind by kind. */
  lemma MapperTables(root: Node)
    requires MapperOf(root).Success?
    ensures var cs := ElementChildren(if root.Elem? then root.children else []);
      var m := MapperOf(root).value;
      m.resultMaps == TableOf(cs, "resultMap", ResultMapOf, ResultMapId) &&
      m.typeMaps == TableOf(cs, "resultMap", ResultMapOf, ResultMapType) &&
      m.sqls == TableOf(cs, "sql", ParseSql, SqlId) &&
      m.inserts == TableOf(cs, "insert", ParseInsert, InsertId) &&
      m.updates == TableOf(cs, "update", ParseUpdate, UpdateId) &&
      m.deletes == TableOf(cs, "delete", ParseDelete, DeleteId) &&
      m.selects == TableOf(cs, "select", ParseSelect, SelectId)
  {
    var cs := ElementChildren(if root.Elem? then root.children else []);
    var m0 := EmptyMapper.(namespace := AttrOr(root, "namespace"));
    AddChildrenTables(m0, cs);
    TablesFromEmpty(MapperOf(root).value, m0, cs);
  }

  lemma EmptyPlus<V>(t: map<string, V>)
    ensures map[] + t == t
  {
  }

  /** Tables grown from empty ones are the per-kind definitions. */
  lemma TablesFromEmpty(m: Mapper, m0: Mapper, cs: seq<Node>)
    requires TablesOf(m, m0, cs)
    requires m0.resultMaps == map[] && m0.typeMaps == map[] && m0.sqls == map[]
    requires m0.inserts == map[] && m0.updates == map[] && m0.deletes == map[] && m0.selects == map[]
    ensures m.resultMaps == TableOf(cs, "resultMap", ResultMapOf, ResultMapId)
    ensures m.typeMaps == TableOf(cs, "resultMap", ResultMapOf, ResultMapType)
    ensures m.sqls == TableOf(cs, "sql", ParseSql, SqlId)
    ensures m.inserts == TableOf(cs, "insert", ParseInsert, InsertId)
    ensures m.updates == TableOf(cs, "update", ParseUpdate, UpdateId)
    ensures m.deletes == TableOf(cs, "delete", ParseDelete, DeleteId)
    ensures m.selects == TableOf(cs, "select", ParseSelect, SelectId)
  {
    EmptyPlus(TableOf(cs, "resultMap", ResultMapOf, ResultMapId));
    EmptyPlus(TableOf(cs, "resultMap", ResultMapOf, ResultMapType));
    EmptyPlus(TableOf(cs, "sql", ParseSql, SqlId));
    EmptyPlus(TableOf(cs, "insert", ParseInsert, InsertId));
    EmptyPlus(TableOf(cs, "update", ParseUpdate, UpdateId));
    EmptyPlus(TableOf(cs, "delete", ParseDelete, DeleteId));
    EmptyPlus(TableOf(cs, "select", ParseSelect, SelectId));
  }

  // ---------------------------------------------------------------------
  // parse_mappers

  /** A directory entry: its file name and the parsed root element of its
      contents. */
  datatype DirEntry = DirEntry(fileName: string, root: Node)

  predicate IsMapperFile(name: string)
  {
    EndsWith(name, "-mapper.xml")
  }

  function MapperFiles(entries: seq<DirEntry>): (r: seq<DirEntry>)
    ensures forall k :: 0 <= k < |r| ==> IsMapperFile(r[k].fileName)
  {
    if entries == [] then []
    else
      var init := MapperFiles(entries[..|entries| - 1]);
      if IsMapperFile(entries[|entries| - 1].fileName) then init + [entries[|entries| - 1]] else init
  }

  function MappersOf(entries: seq<DirEntry>): Result<seq<Mapper>>
  {
    if entries == [] then Success([])
    else
      match MappersOf(entries[..|entries| - 1])
      case Failure(e) => Failure(e)
      case Success(init) =>
        var last := entries[|entries| - 1];
        if !IsMapperFile(last.fileName) then Success(init)
        else
          match MapperOf(last.root)
          case Failure(e) => Failure(e)
          case Success(m) => Success(init + [m])
  }

  /** parse_mappers: the directory entries in the order given, keeping
      those whose name ends with "-mapper.xml"; a file that fails aborts. */
  method ParseMappers(entries: seq<DirEntry>) returns (r: Result<seq<Mapper>>)
    ensures r == MappersOf(entries)
  {
    var mapperList: seq<Mapper> := [];
    for i := 0 to |entries|
      invariant MappersOf(entries[..i]) == Success(mapperList)
    {
      assert entries[..i + 1][..i] == entries[..i];
      var entry := entries[i];
      if EndsWith(entry.fileName, "-mapper.xml") {
        var mapper := ParseMapperFile(entry.root);
        if mapper.Failure? {
          MappersFailurePropagates(entries, i + 1);
          return Failure(mapper.error);
        }
        mapperList := mapperList + [mapper.value];
      }
    }
    assert entries[..|entries|] == entries;
    r := Success(mapperList);
  }

  lemma {:induction false} MappersFailurePropagates(entries: seq<DirEntry>, i: nat)
    requires i <= |entries| && MappersOf(entries[..i]).Failure?
    ensures MappersOf(entries) == MappersOf(entries[..i])
    decreases |entries| - i
  {
    if i < |entries| {
      assert entries[..i + 1][..i] == entries[..i];
      MappersFailurePropagates(entries, i + 1);
    } else {
      assert entries[..i] == entries;
    }
  }

  /** One mapper per "-mapper.xml" entry, in order, and nothing from the
      other entries. */
  lemma {:induction false} MappersOfMeaning(entries: seq<DirEntry>)
    requires MappersOf(entries).Success?
    ensures |MappersOf(entries).value| == |MapperFiles(entries)|
    ensures forall k :: 0 <= k < |MapperFiles(entries)| ==>
      MapperOf(MapperFiles(entries)[k].root) == Success(MappersOf(entries).value[k])
    decreases |entries|
  {
    if entries != [] {
      MappersOfMeaning(entries[..|entries| - 1]);
    }
  }
}
