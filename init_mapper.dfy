/** The scaffolder: from the description of a table it writes a mapper file
    (a result map, a column list fragment and the insert, update, select
    and delete statements) as a sequence of XML events, and a db.xml for
    the database. */
module InitMapper {
  import opened Base
  import opened InitInfo
  import GenMapper
  import GenC
  import YbString

  // ---------------------------------------------------------------------
  // Column types

  /** The C type of a column's field. */
  function ColTypeStr(t: ColumnType): string
  {
    match t
    case INT => "int64_t"
    case STRING => "yb_string_t"
    case FLOAT => "double"
  }

  /** The runtime's null sentinel for a column's field. */
  function ColTypeNullStr(t: ColumnType): string
  {
    match t
    case INT => "YB_INT_NULL"
    case STRING => "YB_STRING_NULL"
    case FLOAT => "YB_FLOAT_NULL"
  }

  /** The scaffolder and the generator agree: every type name written is
      one the generator supports, with the same sentinel, and different
      column types have different type names. */
  lemma ColTypesAgreeWithGenerator(t: ColumnType, u: ColumnType)
    ensures GenC.Sentinel(ColTypeStr(t)) == Some(ColTypeNullStr(t))
    ensures ColTypeStr(t) == ColTypeStr(u) ==> t == u
  {
  }

  // ---------------------------------------------------------------------
  // Names

  /** The characters a name keeps: ASCII letters, digits and '_'. */
  predicate NameChar(c: char)
  {
    '0' <= c <= '9' || 'a' <= c <= 'z' || 'A' <= c <= 'Z' || c == '_'
  }

  /** Every other character replaced by '_', one for one. */
  function Normalize(s: string): (r: string)
    ensures |r| == |s|
    ensures forall i :: 0 <= i < |r| ==> NameChar(r[i])
  {
    seq(|s|, i requires 0 <= i < |s| => if NameChar(s[i]) then s[i] else '_')
  }

  /** Kept characters stay where they were, the others become '_'; so a
      name made of kept characters is its own normal form, and normalising
      twice is normalising once. */
  lemma NormalizeMeaning(s: string)
    ensures forall i :: 0 <= i < |s| && NameChar(s[i]) ==> Normalize(s)[i] == s[i]
    ensures forall i :: 0 <= i < |s| && !NameChar(s[i]) ==> Normalize(s)[i] == '_'
    ensures (forall i :: 0 <= i < |s| ==> NameChar(s[i])) ==> Normalize(s) == s
    ensures Normalize(Normalize(s)) == Normalize(s)
  {
  }

  /** The mapper file of a table and its namespace. */
  function TableFileName(name: string): string
  {
    Normalize(name) + "-mapper.xml"
  }

  function Namespace(name: string): string
  {
    Normalize(name) + "_mapper"
  }

  /** The generator picks up every file the scaffolder writes. */
  lemma TableFilesArePickedUp(name: string)
    ensures GenMapper.IsMapperFile(TableFileName(name))
  {
    var f := TableFileName(name);
    assert f[|f| - 11..] == "-mapper.xml";
  }

  // ---------------------------------------------------------------------
  // XML events and the writer

  datatype Attr = Attr(name: string, value: string)

  datatype XmlEvent =
    | StartElement(name: string, attrs: seq<Attr>)
    | Characters(text: string)
    | EndElement

  /** The event writer of one output file: the events written so far. */
  class EventWriter {
    var events: seq<XmlEvent>

    constructor ()
      ensures events == []
    {
      events := [];
    }

    method Write(e: XmlEvent)
      modifies this
      ensures events == old(events) + [e]
    {
      events := events + [e];
    }
  }

  /** Several events in order. */
  method WriteAll(w: EventWriter, es: seq<XmlEvent>)
    modifies w
    ensures w.events == old(w.events) + es
  {
    ghost var o := w.events;
    for k := 0 to |es|
      invariant w.events == o + es[..k]
    {
      assert es[..k + 1] == es[..k] + [es[k]];
      w.Write(es[k]);
    }
    assert es[..|es|] == es;
  }

  /** The text the events carry, elements left out. */
  function CharsOf(es: seq<XmlEvent>): string
  {
    if es == [] then "" else CharsOf(es[..|es| - 1]) + TextOf(es[|es| - 1])
  }

  function TextOf(e: XmlEvent): string
  {
    if e.Characters? then e.text else ""
  }

  lemma {:induction false} CharsOfAppend(a: seq<XmlEvent>, b: seq<XmlEvent>)
    ensures CharsOf(a + b) == CharsOf(a) + CharsOf(b)
    decreases |b|
  {
    if b == [] {
      assert a + b == a;
    } else {
      var init := b[..|b| - 1];
      assert (a + b)[..|a + b| - 1] == a + init;
      assert (a + b)[|a + b| - 1] == b[|b| - 1];
      CharsOfAppend(a, init);
      var l := TextOf(b[|b| - 1]);
      assert CharsOf(a + b) == CharsOf(a + init) + l;
      assert CharsOf(b) == CharsOf(init) + l;
      AppendAssoc(CharsOf(a), CharsOf(init), l);
    }
  }

  /** Open elements after the events, counting from zero. */
  function Net(es: seq<XmlEvent>): int
  {
    if es == [] then 0
    else Net(es[..|es| - 1]) + (match es[|es| - 1] case StartElement(_, _) => 1 case EndElement => -1 case _ => 0)
  }

  /** The lowest count after any prefix (zero for the empty prefix). */
  function Low(es: seq<XmlEvent>): (r: int)
    ensures r <= 0 && r <= Net(es)
  {
    if es == [] then 0 else Min(Low(es[..|es| - 1]), Net(es))
  }

  function Min(a: int, b: int): int
  {
    if a <= b then a else b
  }

  /** Every end closes an open element and every element is closed, so the
      writer accepts each end-element. */
  predicate Balanced(es: seq<XmlEvent>)
  {
    Net(es) == 0 && Low(es) == 0
  }

  lemma {:induction false} NetLowAppend(a: seq<XmlEvent>, b: seq<XmlEvent>)
    ensures Net(a + b) == Net(a) + Net(b)
    ensures Low(a + b) == Min(Low(a), Net(a) + Low(b))
    decreases |b|
  {
    if b == [] {
      assert a + b == a;
    } else {
      var init := b[..|b| - 1];
      assert (a + b)[..|a + b| - 1] == a + init;
      assert (a + b)[|a + b| - 1] == b[|b| - 1];
      NetLowAppend(a, init);
      var d := match b[|b| - 1] case StartElement(_, _) => 1 case EndElement => -1 case _ => 0;
      assert Net(a + b) == Net(a + init) + d;
      assert Net(b) == Net(init) + d;
      assert Low(a + b) == Min(Low(a + init), Net(a + b));
      assert Low(b) == Min(Low(init), Net(b));
    }
  }

  lemma BalancedConcat(a: seq<XmlEvent>, b: seq<XmlEvent>)
    requires Balanced(a) && Balanced(b)
    ensures Balanced(a + b)
  {
    NetLowAppend(a, b);
  }

  /** An element around balanced content is balanced. */
  lemma BalancedElement(start: XmlEvent, m: seq<XmlEvent>)
    requires start.StartElement? && Balanced(m)
    ensures Balanced(Element(start, m))
  {
    var s := [start];
    assert s[..0] == [];
    NetLowAppend(s, m);
    NetLowAppend(s + m, [EndElement]);
    assert [EndElement][..0] == [];
  }

  predicate TextOnly(es: seq<XmlEvent>)
  {
    forall k :: 0 <= k < |es| ==> es[k].Characters?
  }

  lemma TextOnlyAppend(a: seq<XmlEvent>, b: seq<XmlEvent>)
    requires TextOnly(a) && TextOnly(b)
    ensures TextOnly(a + b)
  {
    forall k | 0 <= k < |a + b|
      ensures (a + b)[k].Characters?
    {
      if k < |a| {
        assert (a + b)[k] == a[k];
      } else {
        assert (a + b)[k] == b[k - |a|];
      }
    }
  }

  lemma {:induction false} TextOnlyBalanced(es: seq<XmlEvent>)
    requires TextOnly(es)
    ensures Balanced(es) && Net(es) == 0
    decreases |es|
  {
    if es != [] {
      var init := es[..|es| - 1];
      assert TextOnly(init) by {
        forall k | 0 <= k < |init|
          ensures init[k].Characters?
        {
          assert init[k] == es[k];
        }
      }
      TextOnlyBalanced(init);
    }
  }

  // ---------------------------------------------------------------------
  // Comma-separated lists (the loops with a `first` flag)

  /** ", " before every item but the first. */
  function Sep(k: nat): seq<XmlEvent>
  {
    if k == 0 then [] else [Characters(", ")]
  }

  function CommaList(items: seq<string>): seq<XmlEvent>
  {
    if items == [] then []
    else
      var init := items[..|items| - 1];
      CommaList(init) + Sep(|init|) + [Characters(items[|items| - 1])]
  }

  /** The loop over the items: a separator unless it is the first. */
  method WriteCommaList(w: EventWriter, items: seq<string>)
    modifies w
    ensures w.events == old(w.events) + CommaList(items)
  {
    ghost var o := w.events;
    var first := true;
    for k := 0 to |items|
      invariant first <==> k == 0
      invariant w.events == o + CommaList(items[..k])
    {
      assert items[..k + 1][..k] == items[..k];
      if !first {
        w.Write(Characters(", "));
      }
      first := false;
      w.Write(Characters(items[k]));
    }
    assert items[..|items|] == items;
  }

  lemma CommaListStep(init: seq<string>, x: string)
    ensures CharsOf(CommaList(init + [x])) == if init == [] then x else CharsOf(CommaList(init)) + ", " + x
  {
    var items := init + [x];
    assert items[..|items| - 1] == init;
    var l := CommaList(init);
    if init != [] {
      CharsOfSnoc(l, ", ");
      CharsOfSnoc(l + [Characters(", ")], x);
    } else {
      CharsOfSnoc([], x);
    }
  }

  /** The list's text is the items joined by ", ". */
  lemma {:induction false} CommaListText(items: seq<string>)
    ensures CharsOf(CommaList(items)) == Join(items, ", ")
    decreases |items|
  {
    if items != [] {
      var init := items[..|items| - 1];
      var x := items[|items| - 1];
      CommaListText(init);
      CommaListStep(init, x);
      JoinSnoc(init, x, ", ");
      assert items == init + [x];
    }
  }

  /** The list is text only. */
  lemma {:induction false} CommaListTextOnly(items: seq<string>)
    ensures TextOnly(CommaList(items))
    decreases |items|
  {
    if items != [] {
      var init := items[..|items| - 1];
      CommaListTextOnly(init);
      TextOnlyAppend(CommaList(init), Sep(|init|));
      TextOnlyAppend(CommaList(init) + Sep(|init|), [Characters(items[|items| - 1])]);
    }
  }

  // ---------------------------------------------------------------------
  // Items derived from the columns

  function NormNames(cols: seq<ColumnInfo>): (r: seq<string>)
    ensures |r| == |cols| && forall k :: 0 <= k < |cols| ==> r[k] == Normalize(cols[k].name)
  {
    seq(|cols|, k requires 0 <= k < |cols| => Normalize(cols[k].name))
  }

  /** A placeholder for a parameter field. */
  function Placeholder(n: string): string
  {
    "#{" + n + "}"
  }

  function ValueWraps(cols: seq<ColumnInfo>): (r: seq<string>)
    ensures |r| == |cols| && forall k :: 0 <= k < |cols| ==> r[k] == Placeholder(Normalize(cols[k].name))
  {
    seq(|cols|, k requires 0 <= k < |cols| => Placeholder(Normalize(cols[k].name)))
  }

  /** "`col` = #{norm}" for the update's SET list. */
  function SetItem(c: ColumnInfo): string
  {
    "`" + c.name + "` = " + Placeholder(Normalize(c.name))
  }

  function SetItems(cols: seq<ColumnInfo>): (r: seq<string>)
    ensures |r| == |cols| && forall k :: 0 <= k < |cols| ==> r[k] == SetItem(cols[k])
  {
    seq(|cols|, k requires 0 <= k < |cols| => SetItem(cols[k]))
  }

  /** The struct type of a table's rows. */
  function ParamType(norm: string): string
  {
    "yb_" + norm + "_t"
  }

  /** The test of a selective statement's if: the field is not null. */
  function NotNullTest(c: ColumnInfo): string
  {
    Normalize(c.name) + " != " + ColTypeNullStr(c.type_)
  }

  // ---------------------------------------------------------------------
  // The parts of a mapper file

  /** An element: its start, what it holds, its end. */
  function Element(start: XmlEvent, body: seq<XmlEvent>): seq<XmlEvent>
  {
    [start] + body + [EndElement]
  }

  function ResultStart(c: ColumnInfo): XmlEvent
  {
    StartElement("result", [Attr("column", c.name), Attr("property", Normalize(c.name)),
                            Attr("yo_type", ColTypeStr(c.type_))])
  }

  /** One result per column, in column order. */
  function ResultsEvents(cols: seq<ColumnInfo>): seq<XmlEvent>
  {
    if cols == [] then [] else ResultsEvents(cols[..|cols| - 1]) + Element(ResultStart(cols[|cols| - 1]), [])
  }

  function ResultMapStart(norm: string): XmlEvent
  {
    StartElement("resultMap", [Attr("id", "BaseResultMap"), Attr("type", ParamType(norm))])
  }

  /** gen_result_map. */
  function ResultMapEvents(cols: seq<ColumnInfo>, norm: string): seq<XmlEvent>
  {
    Element(ResultMapStart(norm), ResultsEvents(cols))
  }

  function ColumnListStart(): XmlEvent
  {
    StartElement("sql", [Attr("id", "base_column_list")])
  }

  /** gen_base_column_list. */
  function BaseColumnListEvents(cols: seq<ColumnInfo>): seq<XmlEvent>
  {
    Element(ColumnListStart(), CommaList(NormNames(cols)))
  }

  function InsertAllStart(norm: string): XmlEvent
  {
    StartElement("insert", [Attr("id", norm + "_insert"), Attr("parameterType", ParamType(norm))])
  }

  function InsertInto(inf: TableInfo, tail: string): seq<XmlEvent>
  {
    [Characters("INSERT INTO `"), Characters(inf.name), Characters(tail)]
  }

  function InsertAllBody(inf: TableInfo): seq<XmlEvent>
  {
    InsertInto(inf, "` (") + CommaList(NormNames(inf.columns)) + [Characters(") VALUES (")] +
    CommaList(ValueWraps(inf.columns)) + [Characters(")")]
  }

  /** gen_insert_all. */
  function InsertAllEvents(inf: TableInfo, norm: string): seq<XmlEvent>
  {
    Element(InsertAllStart(norm), InsertAllBody(inf))
  }

  /** The type of the key column: the first column with that name, INT
      when there is none. */
  function KeyType(cols: seq<ColumnInfo>, key: string): ColumnType
  {
    if cols == [] then INT
    else if cols[0].name == key then cols[0].type_
    else KeyType(cols[1..], key)
  }

  function DeleteStart(inf: TableInfo, norm: string, key: string): XmlEvent
  {
    StartElement("delete", [Attr("id", norm + "_delete_by_" + Normalize(key)),
                            Attr("parameterType", ColTypeStr(KeyType(inf.columns, key)))])
  }

  function DeleteBody(inf: TableInfo, key: string): seq<XmlEvent>
  {
    [Characters("DELETE FROM `"), Characters(inf.name), Characters("` WHERE `"), Characters(key),
     Characters("` = #{"), Characters(Normalize(key)), Characters("}")]
  }

  /** gen_delete_by_primary_key. */
  function DeleteEvents(inf: TableInfo, norm: string, key: string): seq<XmlEvent>
  {
    Element(DeleteStart(inf, norm, key), DeleteBody(inf, key))
  }

  function SelectStart(inf: TableInfo, norm: string, key: string): XmlEvent
  {
    StartElement("select", [Attr("id", norm + "_select_by_" + Normalize(key)), Attr("resultMap", "BaseResultMap"),
                            Attr("parameterType", ColTypeStr(KeyType(inf.columns, key)))])
  }

  function IncludeStart(): XmlEvent
  {
    StartElement("include", [Attr("refid", "base_column_list")])
  }

  function SelectTail(inf: TableInfo, key: string): seq<XmlEvent>
  {
    [Characters(" FROM `"), Characters(inf.name), Characters("` WHERE "),
     Characters(key + " = " + Placeholder(Normalize(key)))]
  }

  function SelectBody(inf: TableInfo, key: string): seq<XmlEvent>
  {
    [Characters("SELECT ")] + Element(IncludeStart(), []) + SelectTail(inf, key)
  }

  /** gen_select_by_primary_key. */
  function SelectEvents(inf: TableInfo, norm: string, key: string): seq<XmlEvent>
  {
    Element(SelectStart(inf, norm, key), SelectBody(inf, key))
  }

  function UpdateStart(id: string, norm: string): XmlEvent
  {
    StartElement("update", [Attr("id", id), Attr("parameterType", ParamType(norm))])
  }

  function UpdateHead(inf: TableInfo): seq<XmlEvent>
  {
    [Characters("UPDATE `"), Characters(inf.name), Characters("` SET ")]
  }

  /** The WHERE clause of the updates, on the normalised key name. */
  function WhereKey(nk: string): seq<XmlEvent>
  {
    [Characters(" WHERE "), Characters(nk), Characters(" = #{"), Characters(nk), Characters("}")]
  }

  function UpdateBody(inf: TableInfo, key: string): seq<XmlEvent>
  {
    UpdateHead(inf) + CommaList(SetItems(inf.columns)) + WhereKey(Normalize(key))
  }

  /** gen_update_by_primary_key: every column, the key included, is set. */
  function UpdateEvents(inf: TableInfo, norm: string, key: string): seq<XmlEvent>
  {
    Element(UpdateStart(norm + "_update_by_" + Normalize(key), norm), UpdateBody(inf, key))
  }

  /** What follows an item of the selective update: ", " as written, which
      the trim's suffix override "," does not match, and "," once
      corrected. */
  function SelectiveSep(fixComma: bool): string
  {
    if fixComma then "," else ", "
  }

  /** The text of one if of the selective update. */
  function SelectiveSet(c: ColumnInfo, fixComma: bool): string
  {
    SetItem(c) + SelectiveSep(fixComma)
  }

  function IfStart(c: ColumnInfo): XmlEvent
  {
    StartElement("if", [Attr("test", NotNullTest(c))])
  }

  function SelectiveIf(c: ColumnInfo, fixComma: bool): seq<XmlEvent>
  {
    Element(IfStart(c), [Characters(SelectiveSet(c, fixComma))])
  }

  /** One if per column other than the key. */
  function SelectiveSets(cols: seq<ColumnInfo>, key: string, fixComma: bool): seq<XmlEvent>
  {
    if cols == [] then []
    else
      var c := cols[|cols| - 1];
      SelectiveSets(cols[..|cols| - 1], key, fixComma) + (if c.name == key then [] else SelectiveIf(c, fixComma))
  }

  /** The columns other than the key, in order. */
  function NonKey(cols: seq<ColumnInfo>, key: string): seq<ColumnInfo>
  {
    if cols == [] then []
    else
      var c := cols[|cols| - 1];
      NonKey(cols[..|cols| - 1], key) + (if c.name == key then [] else [c])
  }

  function SelectiveTrim(): XmlEvent
  {
    StartElement("trim", [Attr("suffixOverrides", ",")])
  }

  function UpdateSelectiveBody(inf: TableInfo, key: string, fixComma: bool): seq<XmlEvent>
  {
    UpdateHead(inf) + Element(SelectiveTrim(), SelectiveSets(inf.columns, key, fixComma)) + WhereKey(Normalize(key))
  }

  /** gen_update_by_primary_key_selective. */
  function UpdateSelectiveEvents(inf: TableInfo, norm: string, key: string, fixComma: bool): seq<XmlEvent>
  {
    Element(UpdateStart(norm + "_update_by_" + Normalize(key) + "_selective", norm),
            UpdateSelectiveBody(inf, key, fixComma))
  }

  /** The if of a column name and the if of its placeholder. */
  function IfColumn(c: ColumnInfo): seq<XmlEvent>
  {
    Element(IfStart(c), [Characters(Normalize(c.name)), Characters(",")])
  }

  function IfValue(c: ColumnInfo): seq<XmlEvent>
  {
    Element(IfStart(c), [Characters(Placeholder(Normalize(c.name))), Characters(",")])
  }

  function IfColumns(cols: seq<ColumnInfo>): seq<XmlEvent>
  {
    if cols == [] then [] else IfColumns(cols[..|cols| - 1]) + IfColumn(cols[|cols| - 1])
  }

  function IfValues(cols: seq<ColumnInfo>): seq<XmlEvent>
  {
    if cols == [] then [] else IfValues(cols[..|cols| - 1]) + IfValue(cols[|cols| - 1])
  }

  function InsertTrim(prefix: string): XmlEvent
  {
    StartElement("trim", [Attr("prefix", prefix), Attr("suffix", ")"), Attr("suffixOverrides", ",")])
  }

  function InsertSelectiveStart(norm: string): XmlEvent
  {
    StartElement("insert", [Attr("id", norm + "_insert_selective"), Attr("parameterType", ParamType(norm))])
  }

  function InsertSelectiveBody(inf: TableInfo): seq<XmlEvent>
  {
    InsertInto(inf, "` ") + Element(InsertTrim("("), IfColumns(inf.columns)) +
    Element(InsertTrim("VALUES ("), IfValues(inf.columns))
  }

  /** gen_insert_selective: a trim of column names and a trim of values. */
  function InsertSelectiveEvents(inf: TableInfo, norm: string): seq<XmlEvent>
  {
    Element(InsertSelectiveStart(norm), InsertSelectiveBody(inf))
  }

  /** The four statements of one primary key column. */
  function KeyStatementsOf(inf: TableInfo, norm: string, key: string, fixComma: bool): seq<XmlEvent>
  {
    UpdateEvents(inf, norm, key) + UpdateSelectiveEvents(inf, norm, key, fixComma) + SelectEvents(inf, norm, key) +
    DeleteEvents(inf, norm, key)
  }

  /** The statements of every primary key column among `cols`, in order. */
  function KeyStatements(inf: TableInfo, norm: string, cols: seq<ColumnInfo>, fixComma: bool): seq<XmlEvent>
  {
    if cols == [] then []
    else
      var c := cols[|cols| - 1];
      KeyStatements(inf, norm, cols[..|cols| - 1], fixComma) +
      (if c.primaryKey then KeyStatementsOf(inf, norm, c.name, fixComma) else [])
  }

  /** What the mapper element holds, in this order. */
  function MapperBody(inf: TableInfo, norm: string, fixComma: bool): seq<XmlEvent>
  {
    ResultMapEvents(inf.columns, norm) + BaseColumnListEvents(inf.columns) + InsertAllEvents(inf, norm) +
    InsertSelectiveEvents(inf, norm) + KeyStatements(inf, norm, inf.columns, fixComma)
  }

  /** gen_table_xml: the mapper element, then a line break. */
  function TableEvents(inf: TableInfo, fixComma: bool): seq<XmlEvent>
  {
    Element(StartElement("mapper", [Attr("namespace", Namespace(inf.name))]),
            MapperBody(inf, Normalize(inf.name), fixComma)) + [Characters("\n")]
  }

  function DbBody(db: DBInfo): seq<XmlEvent>
  {
    Element(StartElement("name", []), [Characters(db.name)]) +
    Element(StartElement("create", []), [Characters(db.create)])
  }

  /** gen_db_xml. */
  function DbEvents(db: DBInfo): seq<XmlEvent>
  {
    Element(StartElement("db", []), DbBody(db)) + [Characters("\n")]
  }

  datatype XmlFile = XmlFile(fileName: string, events: seq<XmlEvent>)

  /** generate: db.xml, then one mapper file per table, in table order. */
  function Generated(db: DBInfo, fixComma: bool): seq<XmlFile>
  {
    [XmlFile("db.xml", DbEvents(db))] +
    seq(|db.tables|, k requires 0 <= k < |db.tables| =>
      XmlFile(TableFileName(db.tables[k].name), TableEvents(db.tables[k], fixComma)))
  }

  // ---------------------------------------------------------------------
  // The writers, each proved against its part of the file

  lemma Flatten3<T>(o: seq<T>, a: seq<T>, b: seq<T>, c: seq<T>)
    ensures o + a + b + c == o + (a + b + c)
  {
  }

  lemma Flatten5<T>(o: seq<T>, a: seq<T>, b: seq<T>, c: seq<T>, d: seq<T>, e: seq<T>)
    ensures o + a + b + c + d + e == o + (a + b + c + d + e)
  {
  }

  /** gen_result_map. */
  method GenResultMap(w: EventWriter, cols: seq<ColumnInfo>, norm: string)
    modifies w
    ensures w.events == old(w.events) + ResultMapEvents(cols, norm)
  {
    ghost var o := w.events;
    w.Write(StartElement("resultMap", [Attr("id", "BaseResultMap"), Attr("type", "yb_" + norm + "_t")]));
    ghost var o1 := w.events;
    for k := 0 to |cols|
      invariant w.events == o1 + ResultsEvents(cols[..k])
    {
      assert cols[..k + 1][..k] == cols[..k];
      var c := cols[k];
      var property := Normalize(c.name);
      var yoType := ColTypeStr(c.type_);
      w.Write(StartElement("result", [Attr("column", c.name), Attr("property", property), Attr("yo_type", yoType)]));
      w.Write(EndElement);
      Flatten3(o1, ResultsEvents(cols[..k]), [ResultStart(c)], [EndElement]);
    }
    assert cols[..|cols|] == cols;
    w.Write(EndElement);
    Flatten3(o, [ResultMapStart(norm)], ResultsEvents(cols), [EndElement]);
  }

  /** gen_base_column_list. */
  method GenBaseColumnList(w: EventWriter, cols: seq<ColumnInfo>)
    modifies w
    ensures w.events == old(w.events) + BaseColumnListEvents(cols)
  {
    ghost var o := w.events;
    w.Write(StartElement("sql", [Attr("id", "base_column_list")]));
    WriteCommaList(w, NormNames(cols));
    w.Write(EndElement);
    Flatten3(o, [ColumnListStart()], CommaList(NormNames(cols)), [EndElement]);
  }

  /** gen_insert_all. */
  method GenInsertAll(w: EventWriter, inf: TableInfo, norm: string)
    modifies w
    ensures w.events == old(w.events) + InsertAllEvents(inf, norm)
  {
    ghost var o := w.events;
    w.Write(StartElement("insert", [Attr("id", norm + "_insert"), Attr("parameterType", "yb_" + norm + "_t")]));
    ghost var o1 := w.events;
    WriteAll(w, InsertInto(inf, "` ("));
    WriteCommaList(w, NormNames(inf.columns));
    w.Write(Characters(") VALUES ("));
    WriteCommaList(w, ValueWraps(inf.columns));
    w.Write(Characters(")"));
    Flatten5(o1, InsertInto(inf, "` ("), CommaList(NormNames(inf.columns)), [Characters(") VALUES (")],
             CommaList(ValueWraps(inf.columns)), [Characters(")")]);
    w.Write(EndElement);
    Flatten3(o, [InsertAllStart(norm)], InsertAllBody(inf), [EndElement]);
  }

  /** The key type lookup of the delete and select writers: the first
      column with the key's name, INT when there is none. */
  method FindKeyType(cols: seq<ColumnInfo>, key: string) returns (t: ColumnType)
    ensures t == KeyType(cols, key)
  {
    t := INT;
    var k := 0;
    while k < |cols|
      invariant 0 <= k <= |cols|
      invariant KeyType(cols, key) == KeyType(cols[k..], key)
    {
      if cols[k].name == key {
        t := cols[k].type_;
        break;
      }
      assert cols[k..][1..] == cols[k + 1..];
      k := k + 1;
    }
  }

  /** gen_delete_by_primary_key. */
  method GenDeleteByPrimaryKey(w: EventWriter, inf: TableInfo, norm: string, key: string)
    modifies w
    ensures w.events == old(w.events) + DeleteEvents(inf, norm, key)
  {
    var nk := Normalize(key);
    var keyType := FindKeyType(inf.columns, key);
    w.Write(StartElement("delete", [Attr("id", norm + "_delete_by_" + nk), Attr("parameterType", ColTypeStr(keyType))]));
    w.Write(Characters("DELETE FROM `"));
    w.Write(Characters(inf.name));
    w.Write(Characters("` WHERE `"));
    w.Write(Characters(key));
    w.Write(Characters("` = #{"));
    w.Write(Characters(nk));
    w.Write(Characters("}"));
    w.Write(EndElement);
  }

  /** gen_select_by_primary_key. */
  method GenSelectByPrimaryKey(w: EventWriter, inf: TableInfo, norm: string, key: string)
    modifies w
    ensures w.events == old(w.events) + SelectEvents(inf, norm, key)
  {
    var nk := Normalize(key);
    var keyType := FindKeyType(inf.columns, key);
    ghost var o := w.events;
    w.Write(StartElement("select", [Attr("id", norm + "_select_by_" + nk), Attr("resultMap", "BaseResultMap"),
                                    Attr("parameterType", ColTypeStr(keyType))]));
    ghost var o1 := w.events;
    w.Write(Characters("SELECT "));
    w.Write(StartElement("include", [Attr("refid", "base_column_list")]));
    w.Write(EndElement);
    ghost var o2 := w.events;
    w.Write(Characters(" FROM `"));
    w.Write(Characters(inf.name));
    w.Write(Characters("` WHERE "));
    var whereCond := key + " = " + Placeholder(nk);
    w.Write(Characters(whereCond));
    assert w.events == o2 + SelectTail(inf, key);
    Flatten3(o1, [Characters("SELECT ")], Element(IncludeStart(), []), SelectTail(inf, key));
    w.Write(EndElement);
    Flatten3(o, [SelectStart(inf, norm, key)], SelectBody(inf, key), [EndElement]);
  }

  /** gen_update_by_primary_key. */
  method GenUpdateByPrimaryKey(w: EventWriter, inf: TableInfo, norm: string, key: string)
    modifies w
    ensures w.events == old(w.events) + UpdateEvents(inf, norm, key)
  {
    ghost var o := w.events;
    var nk := Normalize(key);
    w.Write(UpdateStart(norm + "_update_by_" + nk, norm));
    ghost var o1 := w.events;
    WriteAll(w, UpdateHead(inf));
    WriteCommaList(w, SetItems(inf.columns));
    WriteAll(w, WhereKey(nk));
    Flatten3(o1, UpdateHead(inf), CommaList(SetItems(inf.columns)), WhereKey(nk));
    w.Write(EndElement);
    Flatten3(o, [UpdateStart(norm + "_update_by_" + nk, norm)], UpdateBody(inf, key), [EndElement]);
  }

  /** gen_update_by_primary_key_selective: the key column is skipped. */
  method GenUpdateByPrimaryKeySelective(w: EventWriter, inf: TableInfo, norm: string, key: string, fixComma: bool)
    modifies w
    ensures w.events == old(w.events) + UpdateSelectiveEvents(inf, norm, key, fixComma)
  {
    ghost var o := w.events;
    var nk := Normalize(key);
    w.Write(UpdateStart(norm + "_update_by_" + nk + "_selective", norm));
    ghost var o1 := w.events;
    WriteAll(w, UpdateHead(inf));
    ghost var o2 := w.events;
    w.Write(SelectiveTrim());
    WriteSelectiveSets(w, inf.columns, key, fixComma);
    w.Write(EndElement);
    Flatten3(o2, [SelectiveTrim()], SelectiveSets(inf.columns, key, fixComma), [EndElement]);
    WriteAll(w, WhereKey(nk));
    Flatten3(o1, UpdateHead(inf), Element(SelectiveTrim(), SelectiveSets(inf.columns, key, fixComma)), WhereKey(nk));
    w.Write(EndElement);
    Flatten3(o, [UpdateStart(norm + "_update_by_" + nk + "_selective", norm)], UpdateSelectiveBody(inf, key, fixComma),
             [EndElement]);
  }

  /** The loop of gen_update_by_primary_key_selective. */
  method WriteSelectiveSets(w: EventWriter, cols: seq<ColumnInfo>, key: string, fixComma: bool)
    modifies w
    ensures w.events == old(w.events) + SelectiveSets(cols, key, fixComma)
  {
    ghost var o := w.events;
    for k := 0 to |cols|
      invariant w.events == o + SelectiveSets(cols[..k], key, fixComma)
    {
      assert cols[..k + 1][..k] == cols[..k];
      var c := cols[k];
      if c.name == key {
        continue;
      }
      w.Write(StartElement("if", [Attr("test", NotNullTest(c))]));
      w.Write(Characters(SelectiveSet(c, fixComma)));
      w.Write(EndElement);
      Flatten3(o, SelectiveSets(cols[..k], key, fixComma), [IfStart(c), Characters(SelectiveSet(c, fixComma))],
               [EndElement]);
    }
    assert cols[..|cols|] == cols;
  }

  /** The first loop of gen_insert_selective: one if per column name. */
  method WriteIfColumns(w: EventWriter, cols: seq<ColumnInfo>)
    modifies w
    ensures w.events == old(w.events) + IfColumns(cols)
  {
    ghost var o := w.events;
    for k := 0 to |cols|
      invariant w.events == o + IfColumns(cols[..k])
    {
      assert cols[..k + 1][..k] == cols[..k];
      var c := cols[k];
      var n := Normalize(c.name);
      w.Write(StartElement("if", [Attr("test", n + " != " + ColTypeNullStr(c.type_))]));
      w.Write(Characters(n));
      w.Write(Characters(","));
      w.Write(EndElement);
      Flatten3(o, IfColumns(cols[..k]), [IfStart(c), Characters(n), Characters(",")], [EndElement]);
    }
    assert cols[..|cols|] == cols;
  }

  /** The second loop of gen_insert_selective: one if per placeholder. */
  method WriteIfValues(w: EventWriter, cols: seq<ColumnInfo>)
    modifies w
    ensures w.events == old(w.events) + IfValues(cols)
  {
    ghost var o := w.events;
    for k := 0 to |cols|
      invariant w.events == o + IfValues(cols[..k])
    {
      assert cols[..k + 1][..k] == cols[..k];
      var c := cols[k];
      var n := Normalize(c.name);
      w.Write(StartElement("if", [Attr("test", n + " != " + ColTypeNullStr(c.type_))]));
      w.Write(Characters("#{" + n + "}"));
      w.Write(Characters(","));
      w.Write(EndElement);
      Flatten3(o, IfValues(cols[..k]), [IfStart(c), Characters(Placeholder(n)), Characters(",")], [EndElement]);
    }
    assert cols[..|cols|] == cols;
  }

  /** gen_insert_selective. */
  method GenInsertSelective(w: EventWriter, inf: TableInfo, norm: string)
    modifies w
    ensures w.events == old(w.events) + InsertSelectiveEvents(inf, norm)
  {
    ghost var o := w.events;
    w.Write(InsertSelectiveStart(norm));
    ghost var o1 := w.events;
    WriteAll(w, InsertInto(inf, "` "));
    ghost var o2 := w.events;
    w.Write(InsertTrim("("));
    WriteIfColumns(w, inf.columns);
    w.Write(EndElement);
    Flatten3(o2, [InsertTrim("(")], IfColumns(inf.columns), [EndElement]);
    ghost var o3 := w.events;
    w.Write(InsertTrim("VALUES ("));
    WriteIfValues(w, inf.columns);
    w.Write(EndElement);
    Flatten3(o3, [InsertTrim("VALUES (")], IfValues(inf.columns), [EndElement]);
    Flatten3(o1, InsertInto(inf, "` "), Element(InsertTrim("("), IfColumns(inf.columns)),
             Element(InsertTrim("VALUES ("), IfValues(inf.columns)));
    w.Write(EndElement);
    Flatten3(o, [InsertSelectiveStart(norm)], InsertSelectiveBody(inf), [EndElement]);
  }

  /** The four statements of one primary key column. */
  method WriteKeyStatementsOf(w: EventWriter, inf: TableInfo, norm: string, key: string, fixComma: bool)
    modifies w
    ensures w.events == old(w.events) + KeyStatementsOf(inf, norm, key, fixComma)
  {
    ghost var o := w.events;
    ghost var a, b := UpdateEvents(inf, norm, key), UpdateSelectiveEvents(inf, norm, key, fixComma);
    ghost var d, e := SelectEvents(inf, norm, key), DeleteEvents(inf, norm, key);
    GenUpdateByPrimaryKey(w, inf, norm, key);
    assert w.events == o + a;
    GenUpdateByPrimaryKeySelective(w, inf, norm, key, fixComma);
    assert w.events == o + a + b;
    GenSelectByPrimaryKey(w, inf, norm, key);
    assert w.events == o + a + b + d;
    GenDeleteByPrimaryKey(w, inf, norm, key);
    assert w.events == o + a + b + d + e;
    Flatten5(o, a, b, d, e, []);
    assert a + b + d + e + [] == a + b + d + e;
  }

  /** The loop of gen_table_xml over the primary key columns. */
  method WriteKeyStatements(w: EventWriter, inf: TableInfo, norm: string, fixComma: bool)
    modifies w
    ensures w.events == old(w.events) + KeyStatements(inf, norm, inf.columns, fixComma)
  {
    ghost var o := w.events;
    var cols := inf.columns;
    for k := 0 to |cols|
      invariant w.events == o + KeyStatements(inf, norm, cols[..k], fixComma)
    {
      assert cols[..k + 1][..k] == cols[..k];
      var c := cols[k];
      if c.primaryKey {
        WriteKeyStatementsOf(w, inf, norm, c.name, fixComma);
        AppendAssoc(o, KeyStatements(inf, norm, cols[..k], fixComma), KeyStatementsOf(inf, norm, c.name, fixComma));
      }
    }
    assert cols[..|cols|] == cols;
  }

  /** The body of gen_table_xml between the mapper's start and end. */
  method WriteMapperBody(w: EventWriter, inf: TableInfo, norm: string, fixComma: bool)
    modifies w
    ensures w.events == old(w.events) + MapperBody(inf, norm, fixComma)
  {
    ghost var o := w.events;
    ghost var a, b, c := ResultMapEvents(inf.columns, norm), BaseColumnListEvents(inf.columns), InsertAllEvents(inf, norm);
    ghost var d, e := InsertSelectiveEvents(inf, norm), KeyStatements(inf, norm, inf.columns, fixComma);
    GenResultMap(w, inf.columns, norm);
    assert w.events == o + a;
    GenBaseColumnList(w, inf.columns);
    assert w.events == o + a + b;
    GenInsertAll(w, inf, norm);
    assert w.events == o + a + b + c;
    GenInsertSelective(w, inf, norm);
    assert w.events == o + a + b + c + d;
    WriteKeyStatements(w, inf, norm, fixComma);
    assert w.events == o + a + b + c + d + e;
    Flatten5(o, a, b, c, d, e);
  }

  /** gen_table_xml: the file name and the events of one table. */
  method GenTableXml(inf: TableInfo, fixComma: bool) returns (f: XmlFile)
    ensures f == XmlFile(TableFileName(inf.name), TableEvents(inf, fixComma))
  {
    var norm := Normalize(inf.name);
    var filename := norm + "-mapper.xml";
    var namespace := norm + "_mapper";
    var w := new EventWriter();
    var start := StartElement("mapper", [Attr("namespace", namespace)]);
    w.Write(start);
    WriteMapperBody(w, inf, norm, fixComma);
    w.Write(EndElement);
    Flatten3([], [start], MapperBody(inf, norm, fixComma), [EndElement]);
    w.Write(Characters("\n"));
    f := XmlFile(filename, w.events);
  }

  /** gen_db_xml. */
  method GenDbXml(db: DBInfo) returns (f: XmlFile)
    ensures f == XmlFile("db.xml", DbEvents(db))
  {
    var w := new EventWriter();
    w.Write(StartElement("db", []));
    w.Write(StartElement("name", []));
    w.Write(Characters(db.name));
    w.Write(EndElement);
    w.Write(StartElement("create", []));
    w.Write(Characters(db.create));
    w.Write(EndElement);
    w.Write(EndElement);
    w.Write(Characters("\n"));
    f := XmlFile("db.xml", w.events);
  }

  /** generate: db.xml first, then the tables in order. */
  method Generate(db: DBInfo, fixComma: bool) returns (files: seq<XmlFile>)
    ensures files == Generated(db, fixComma)
  {
    var dbFile := GenDbXml(db);
    files := [dbFile];
    for k := 0 to |db.tables|
      invariant |files| == k + 1
      invariant files == Generated(db, fixComma)[..k + 1]
    {
      var f := GenTableXml(db.tables[k], fixComma);
      files := files + [f];
    }
  }

  // ---------------------------------------------------------------------
  // What the generated files say

  lemma CharsOfOne(e: XmlEvent)
    ensures CharsOf([e]) == TextOf(e)
  {
    assert [e][..0] == [];
  }

  /** An element contributes the text it holds and nothing else. */
  lemma CharsOfElement(start: XmlEvent, body: seq<XmlEvent>)
    requires start.StartElement?
    ensures CharsOf(Element(start, body)) == CharsOf(body)
  {
    CharsOfAppend([start], body);
    CharsOfAppend([start] + body, [EndElement]);
    CharsOfOne(start);
    CharsOfOne(EndElement);
  }

  lemma CharsOfThree(a: string, b: string, c: string)
    ensures CharsOf([Characters(a), Characters(b), Characters(c)]) == a + b + c
  {
    var es := [Characters(a), Characters(b), Characters(c)];
    assert es[..2][..1] == [Characters(a)];
    assert es[..2] == [Characters(a), Characters(b)];
    CharsOfOne(Characters(a));
  }

  /** The column list fragment is the normalised names joined by ", ". */
  lemma BaseColumnListText(cols: seq<ColumnInfo>)
    ensures CharsOf(BaseColumnListEvents(cols)) == Join(NormNames(cols), ", ")
  {
    CharsOfElement(ColumnListStart(), CommaList(NormNames(cols)));
    CommaListText(NormNames(cols));
  }

  /** The SQL of the insert: every column and, in the same order, a
      placeholder for each. */
  lemma InsertAllText(inf: TableInfo, norm: string)
    ensures CharsOf(InsertAllEvents(inf, norm)) ==
      "INSERT INTO `" + inf.name + "` (" + Join(NormNames(inf.columns), ", ") + ") VALUES (" +
      Join(ValueWraps(inf.columns), ", ") + ")"
  {
    var names, values := CommaList(NormNames(inf.columns)), CommaList(ValueWraps(inf.columns));
    CharsOfElement(InsertAllStart(norm), InsertAllBody(inf));
    CharsOfAppend(InsertInto(inf, "` (") + names + [Characters(") VALUES (")] + values, [Characters(")")]);
    CharsOfAppend(InsertInto(inf, "` (") + names + [Characters(") VALUES (")], values);
    CharsOfAppend(InsertInto(inf, "` (") + names, [Characters(") VALUES (")]);
    CharsOfAppend(InsertInto(inf, "` ("), names);
    CharsOfThree("INSERT INTO `", inf.name, "` (");
    CharsOfOne(Characters(") VALUES ("));
    CharsOfOne(Characters(")"));
    CommaListText(NormNames(inf.columns));
    CommaListText(ValueWraps(inf.columns));
  }

  lemma WhereKeyText(nk: string)
    ensures CharsOf(WhereKey(nk)) == " WHERE " + nk + " = #{" + nk + "}"
  {
    var es := WhereKey(nk);
    assert es[..3] == [Characters(" WHERE "), Characters(nk), Characters(" = #{")];
    assert es[..4][..3] == es[..3];
    CharsOfThree(" WHERE ", nk, " = #{");
  }

  /** The SQL of the update: every column set to its placeholder, the key
      column included, and the WHERE clause on the normalised key name. */
  lemma UpdateText(inf: TableInfo, norm: string, key: string)
    ensures CharsOf(UpdateEvents(inf, norm, key)) ==
      "UPDATE `" + inf.name + "` SET " + Join(SetItems(inf.columns), ", ") +
      (" WHERE " + Normalize(key) + " = #{" + Normalize(key) + "}")
  {
    var sets := CommaList(SetItems(inf.columns));
    CharsOfElement(UpdateStart(norm + "_update_by_" + Normalize(key), norm), UpdateBody(inf, key));
    CharsOfAppend(UpdateHead(inf) + sets, WhereKey(Normalize(key)));
    CharsOfAppend(UpdateHead(inf), sets);
    CharsOfThree("UPDATE `", inf.name, "` SET ");
    CommaListText(SetItems(inf.columns));
    WhereKeyText(Normalize(key));
  }

  lemma CharsOfSnoc(es: seq<XmlEvent>, t: string)
    ensures CharsOf(es + [Characters(t)]) == CharsOf(es) + t
  {
    assert (es + [Characters(t)])[..|es|] == es;
  }

  /** The SQL of the delete: the key column against the key's placeholder. */
  lemma DeleteText(inf: TableInfo, norm: string, key: string)
    ensures CharsOf(DeleteEvents(inf, norm, key)) ==
      "DELETE FROM `" + inf.name + "` WHERE `" + key + "` = #{" + Normalize(key) + "}"
  {
    var es := DeleteBody(inf, key);
    CharsOfElement(DeleteStart(inf, norm, key), es);
    var e3 := [Characters("DELETE FROM `"), Characters(inf.name), Characters("` WHERE `")];
    CharsOfThree("DELETE FROM `", inf.name, "` WHERE `");
    CharsOfSnoc(e3, key);
    CharsOfSnoc(e3 + [Characters(key)], "` = #{");
    CharsOfSnoc(e3 + [Characters(key)] + [Characters("` = #{")], Normalize(key));
    CharsOfSnoc(e3 + [Characters(key)] + [Characters("` = #{")] + [Characters(Normalize(key))], "}");
    assert es == e3 + [Characters(key)] + [Characters("` = #{")] + [Characters(Normalize(key))] + [Characters("}")];
  }

  /** The SQL of the select: the column list fragment is included right
      after "SELECT ", and the rest is the key against its placeholder. */
  lemma SelectText(inf: TableInfo, norm: string, key: string)
    ensures SelectEvents(inf, norm, key)[2] == IncludeStart()
    ensures CharsOf(SelectEvents(inf, norm, key)) ==
      "SELECT " + (" FROM `" + inf.name + "` WHERE " + (key + " = " + Placeholder(Normalize(key))))
  {
    CharsOfElement(SelectStart(inf, norm, key), SelectBody(inf, key));
    SelectHeadText();
    SelectTailText(inf, key);
    CharsOfAppend([Characters("SELECT ")] + Element(IncludeStart(), []), SelectTail(inf, key));
  }

  /** "SELECT " and the include of the column list carry just "SELECT ". */
  lemma SelectHeadText()
    ensures CharsOf([Characters("SELECT ")] + Element(IncludeStart(), [])) == "SELECT "
  {
    CharsOfAppend([Characters("SELECT ")], Element(IncludeStart(), []));
    CharsOfElement(IncludeStart(), []);
    CharsOfOne(Characters("SELECT "));
  }

  lemma SelectTailText(inf: TableInfo, key: string)
    ensures CharsOf(SelectTail(inf, key)) ==
      " FROM `" + inf.name + "` WHERE " + (key + " = " + Placeholder(Normalize(key)))
  {
    var t3 := [Characters(" FROM `"), Characters(inf.name), Characters("` WHERE ")];
    CharsOfThree(" FROM `", inf.name, "` WHERE ");
    CharsOfSnoc(t3, key + " = " + Placeholder(Normalize(key)));
    assert SelectTail(inf, key) == t3 + [Characters(key + " = " + Placeholder(Normalize(key)))];
  }

  /** The result map has one result per column, in column order, whose
      attributes are the column, its normalised name and its C type. */
  lemma {:induction false} ResultMapShape(cols: seq<ColumnInfo>)
    ensures |ResultsEvents(cols)| == 2 * |cols|
    ensures forall k :: 0 <= k < |cols| ==>
      ResultsEvents(cols)[2 * k] == ResultStart(cols[k]) && ResultsEvents(cols)[2 * k + 1] == EndElement
    decreases |cols|
  {
    if cols != [] {
      var init := cols[..|cols| - 1];
      ResultMapShape(init);
      var r := ResultsEvents(cols);
      assert r == ResultsEvents(init) + [ResultStart(cols[|cols| - 1]), EndElement];
      forall k | 0 <= k < |cols|
        ensures r[2 * k] == ResultStart(cols[k]) && r[2 * k + 1] == EndElement
      {
        if k < |init| {
          assert cols[k] == init[k];
        }
      }
    }
  }

  /** The results the generator would read back from a scaffolded result
      map, written down from the events GenResultMap writes rather than
      derived by parsing them. */
  function ScaffoldResults(cols: seq<ColumnInfo>): (r: seq<GenMapper.YoResult>)
    ensures |r| == |cols|
  {
    seq(|cols|, k requires 0 <= k < |cols| =>
      GenMapper.YoResult(cols[k].name, Normalize(cols[k].name), ColTypeStr(cols[k].type_)))
  }

  /** Every scaffolded result has a type the generator supports, so the
      generated init function has a line for each. */
  lemma ScaffoldResultsSupported(cols: seq<ColumnInfo>)
    ensures GenC.AllSupported(ScaffoldResults(cols))
    ensures GenC.InitLines(ScaffoldResults(cols)).Success?
  {
    var rs := ScaffoldResults(cols);
    forall k | 0 <= k < |rs|
      ensures GenC.Sentinel(rs[k].yoType).Some?
    {
      ColTypesAgreeWithGenerator(cols[k].type_, cols[k].type_);
    }
    GenC.InitLinesMeaning(rs);
  }

  /** The key type is the type of the first column named like the key, and
      INT when no column is. */
  lemma {:induction false} KeyTypeMeaning(cols: seq<ColumnInfo>, key: string)
    ensures (forall k :: 0 <= k < |cols| ==> cols[k].name != key) ==> KeyType(cols, key) == INT
    ensures forall i :: 0 <= i < |cols| && cols[i].name == key && (forall j :: 0 <= j < i ==> cols[j].name != key) ==>
      KeyType(cols, key) == cols[i].type_
    decreases |cols|
  {
    if cols != [] {
      var rest := cols[1..];
      KeyTypeMeaning(rest, key);
      if cols[0].name != key {
        forall i | 0 < i < |cols| && cols[i].name == key && (forall j :: 0 <= j < i ==> cols[j].name != key)
          ensures KeyType(cols, key) == cols[i].type_
        {
          assert rest[i - 1] == cols[i];
          forall j | 0 <= j < i - 1
            ensures rest[j].name != key
          {
            assert rest[j] == cols[j + 1];
          }
        }
        if forall k :: 0 <= k < |cols| ==> cols[k].name != key {
          forall k | 0 <= k < |rest|
            ensures rest[k].name != key
          {
            assert rest[k] == cols[k + 1];
          }
        }
      }
    }
  }

  /** A table gets update, select and delete statements exactly when it
      has a primary key column. */
  lemma {:induction false} KeyStatementsPresent(inf: TableInfo, norm: string, cols: seq<ColumnInfo>, fixComma: bool)
    ensures KeyStatements(inf, norm, cols, fixComma) == [] <==> forall k :: 0 <= k < |cols| ==> !cols[k].primaryKey
    decreases |cols|
  {
    if cols != [] {
      var init := cols[..|cols| - 1];
      var c := cols[|cols| - 1];
      KeyStatementsPresent(inf, norm, init, fixComma);
      if c.primaryKey {
        assert |KeyStatementsOf(inf, norm, c.name, fixComma)| > 0;
      }
      assert (forall k :: 0 <= k < |cols| ==> !cols[k].primaryKey) <==>
        (forall k :: 0 <= k < |init| ==> !init[k].primaryKey) && !c.primaryKey by {
        assert forall k :: 0 <= k < |init| ==> init[k] == cols[k];
      }
    }
  }

  // ---------------------------------------------------------------------
  // Well-formed files

  lemma {:induction false} ResultsBalanced(cols: seq<ColumnInfo>)
    ensures Balanced(ResultsEvents(cols))
    decreases |cols|
  {
    if cols != [] {
      ResultsBalanced(cols[..|cols| - 1]);
      TextOnlyBalanced([]);
      BalancedElement(ResultStart(cols[|cols| - 1]), []);
      BalancedConcat(ResultsEvents(cols[..|cols| - 1]), Element(ResultStart(cols[|cols| - 1]), []));
    }
  }

  lemma InsertAllBalanced(inf: TableInfo, norm: string)
    ensures Balanced(InsertAllEvents(inf, norm))
  {
    var names, values := CommaList(NormNames(inf.columns)), CommaList(ValueWraps(inf.columns));
    CommaListTextOnly(NormNames(inf.columns));
    CommaListTextOnly(ValueWraps(inf.columns));
    TextOnlyAppend(InsertInto(inf, "` ("), names);
    TextOnlyAppend(InsertInto(inf, "` (") + names, [Characters(") VALUES (")]);
    TextOnlyAppend(InsertInto(inf, "` (") + names + [Characters(") VALUES (")], values);
    TextOnlyAppend(InsertInto(inf, "` (") + names + [Characters(") VALUES (")] + values, [Characters(")")]);
    TextOnlyBalanced(InsertAllBody(inf));
    BalancedElement(InsertAllStart(norm), InsertAllBody(inf));
  }

  lemma {:induction false} SelectiveSetsBalanced(cols: seq<ColumnInfo>, key: string, fixComma: bool)
    ensures Balanced(SelectiveSets(cols, key, fixComma))
    decreases |cols|
  {
    if cols != [] {
      var init, c := cols[..|cols| - 1], cols[|cols| - 1];
      SelectiveSetsBalanced(init, key, fixComma);
      if c.name == key {
        var l := SelectiveSets(init, key, fixComma);
        assert l + [] == l;
      } else {
        TextOnlyBalanced([Characters(SelectiveSet(c, fixComma))]);
        BalancedElement(IfStart(c), [Characters(SelectiveSet(c, fixComma))]);
        BalancedConcat(SelectiveSets(init, key, fixComma), SelectiveIf(c, fixComma));
      }
    }
  }

  lemma {:induction false} IfsBalanced(cols: seq<ColumnInfo>)
    ensures Balanced(IfColumns(cols)) && Balanced(IfValues(cols))
    decreases |cols|
  {
    if cols != [] {
      var init, c := cols[..|cols| - 1], cols[|cols| - 1];
      IfsBalanced(init);
      var n := Normalize(c.name);
      TextOnlyBalanced([Characters(n), Characters(",")]);
      TextOnlyBalanced([Characters(Placeholder(n)), Characters(",")]);
      BalancedElement(IfStart(c), [Characters(n), Characters(",")]);
      BalancedElement(IfStart(c), [Characters(Placeholder(n)), Characters(",")]);
      BalancedConcat(IfColumns(init), IfColumn(c));
      BalancedConcat(IfValues(init), IfValue(c));
    }
  }

  lemma UpdateBalanced(inf: TableInfo, norm: string, key: string)
    ensures Balanced(UpdateEvents(inf, norm, key))
  {
    var sets := CommaList(SetItems(inf.columns));
    CommaListTextOnly(SetItems(inf.columns));
    TextOnlyAppend(UpdateHead(inf), sets);
    TextOnlyAppend(UpdateHead(inf) + sets, WhereKey(Normalize(key)));
    TextOnlyBalanced(UpdateBody(inf, key));
    BalancedElement(UpdateStart(norm + "_update_by_" + Normalize(key), norm), UpdateBody(inf, key));
  }

  lemma UpdateSelectiveBalanced(inf: TableInfo, norm: string, key: string, fixComma: bool)
    ensures Balanced(UpdateSelectiveEvents(inf, norm, key, fixComma))
  {
    var trim := Element(SelectiveTrim(), SelectiveSets(inf.columns, key, fixComma));
    SelectiveSetsBalanced(inf.columns, key, fixComma);
    BalancedElement(SelectiveTrim(), SelectiveSets(inf.columns, key, fixComma));
    TextOnlyBalanced(UpdateHead(inf));
    TextOnlyBalanced(WhereKey(Normalize(key)));
    BalancedConcat(UpdateHead(inf), trim);
    BalancedConcat(UpdateHead(inf) + trim, WhereKey(Normalize(key)));
    BalancedElement(UpdateStart(norm + "_update_by_" + Normalize(key) + "_selective", norm),
                    UpdateSelectiveBody(inf, key, fixComma));
  }

  lemma SelectBalanced(inf: TableInfo, norm: string, key: string)
    ensures Balanced(SelectEvents(inf, norm, key))
  {
    var head := [Characters("SELECT ")];
    TextOnlyBalanced([]);
    BalancedElement(IncludeStart(), []);
    TextOnlyBalanced(head);
    TextOnlyBalanced(SelectTail(inf, key));
    BalancedConcat(head, Element(IncludeStart(), []));
    BalancedConcat(head + Element(IncludeStart(), []), SelectTail(inf, key));
    BalancedElement(SelectStart(inf, norm, key), SelectBody(inf, key));
  }

  lemma DeleteBalanced(inf: TableInfo, norm: string, key: string)
    ensures Balanced(DeleteEvents(inf, norm, key))
  {
    TextOnlyBalanced(DeleteBody(inf, key));
    BalancedElement(DeleteStart(inf, norm, key), DeleteBody(inf, key));
  }

  lemma KeyStatementsOfBalanced(inf: TableInfo, norm: string, key: string, fixComma: bool)
    ensures Balanced(KeyStatementsOf(inf, norm, key, fixComma))
  {
    var a, b := UpdateEvents(inf, norm, key), UpdateSelectiveEvents(inf, norm, key, fixComma);
    var c, d := SelectEvents(inf, norm, key), DeleteEvents(inf, norm, key);
    UpdateBalanced(inf, norm, key);
    UpdateSelectiveBalanced(inf, norm, key, fixComma);
    SelectBalanced(inf, norm, key);
    DeleteBalanced(inf, norm, key);
    BalancedConcat(a, b);
    BalancedConcat(a + b, c);
    BalancedConcat(a + b + c, d);
  }

  lemma {:induction false} KeyStatementsBalanced(inf: TableInfo, norm: string, cols: seq<ColumnInfo>, fixComma: bool)
    ensures Balanced(KeyStatements(inf, norm, cols, fixComma))
    decreases |cols|
  {
    if cols != [] {
      var init, c := cols[..|cols| - 1], cols[|cols| - 1];
      KeyStatementsBalanced(inf, norm, init, fixComma);
      if c.primaryKey {
        KeyStatementsOfBalanced(inf, norm, c.name, fixComma);
        BalancedConcat(KeyStatements(inf, norm, init, fixComma), KeyStatementsOf(inf, norm, c.name, fixComma));
      } else {
        var l := KeyStatements(inf, norm, init, fixComma);
        assert l + [] == l;
      }
    }
  }

  lemma InsertSelectiveBalanced(inf: TableInfo, norm: string)
    ensures Balanced(InsertSelectiveEvents(inf, norm))
  {
    IfsBalanced(inf.columns);
    TextOnlyBalanced(InsertInto(inf, "` "));
    BalancedElement(InsertTrim("("), IfColumns(inf.columns));
    BalancedElement(InsertTrim("VALUES ("), IfValues(inf.columns));
    BalancedConcat(InsertInto(inf, "` "), Element(InsertTrim("("), IfColumns(inf.columns)));
    BalancedConcat(InsertInto(inf, "` ") + Element(InsertTrim("("), IfColumns(inf.columns)),
                   Element(InsertTrim("VALUES ("), IfValues(inf.columns)));
    BalancedElement(InsertSelectiveStart(norm), InsertSelectiveBody(inf));
  }

  /** Every mapper file is well formed: each end closes an open element and
      every element is closed, so the XML writer accepts the events. */
  lemma TableBalanced(inf: TableInfo, fixComma: bool)
    ensures Balanced(TableEvents(inf, fixComma))
  {
    var norm := Normalize(inf.name);
    ResultsBalanced(inf.columns);
    BalancedElement(ResultMapStart(norm), ResultsEvents(inf.columns));
    CommaListTextOnly(NormNames(inf.columns));
    TextOnlyBalanced(CommaList(NormNames(inf.columns)));
    BalancedElement(ColumnListStart(), CommaList(NormNames(inf.columns)));
    InsertAllBalanced(inf, norm);
    InsertSelectiveBalanced(inf, norm);
    KeyStatementsBalanced(inf, norm, inf.columns, fixComma);
    var a, b, c := ResultMapEvents(inf.columns, norm), BaseColumnListEvents(inf.columns), InsertAllEvents(inf, norm);
    var d, e := InsertSelectiveEvents(inf, norm), KeyStatements(inf, norm, inf.columns, fixComma);
    BalancedConcat(a, b);
    BalancedConcat(a + b, c);
    BalancedConcat(a + b + c, d);
    BalancedConcat(a + b + c + d, e);
    var start := StartElement("mapper", [Attr("namespace", Namespace(inf.name))]);
    BalancedElement(start, MapperBody(inf, norm, fixComma));
    TextOnlyBalanced([Characters("\n")]);
    BalancedConcat(Element(start, MapperBody(inf, norm, fixComma)), [Characters("\n")]);
  }

  /** db.xml is well formed too. */
  lemma DbBalanced(db: DBInfo)
    ensures Balanced(DbEvents(db))
  {
    TextOnlyBalanced([Characters(db.name)]);
    TextOnlyBalanced([Characters(db.create)]);
    TextOnlyBalanced([Characters("\n")]);
    BalancedElement(StartElement("name", []), [Characters(db.name)]);
    BalancedElement(StartElement("create", []), [Characters(db.create)]);
    BalancedConcat(Element(StartElement("name", []), [Characters(db.name)]),
                   Element(StartElement("create", []), [Characters(db.create)]));
    BalancedElement(StartElement("db", []), DbBody(db));
    BalancedConcat(Element(StartElement("db", []), DbBody(db)), [Characters("\n")]);
  }

  // ---------------------------------------------------------------------
  // The selective statements under the runtime's trim
  //
  // At run time only the ifs whose test holds are rendered, so the text a
  // trim receives is the text of the ifs of the columns whose field is not
  // null; the lemmas below take `cols` to be those columns.

  /** Each item followed by the separator. */
  function Terminated(items: seq<string>, sep: string): string
  {
    if items == [] then "" else Terminated(items[..|items| - 1], sep) + items[|items| - 1] + sep
  }

  lemma {:induction false} TerminatedJoin(items: seq<string>, sep: string)
    requires items != []
    ensures Terminated(items, sep) == Join(items, sep) + sep
    decreases |items|
  {
    var init, x := items[..|items| - 1], items[|items| - 1];
    assert items == init + [x];
    JoinSnoc(init, x, sep);
    if init != [] {
      TerminatedJoin(init, sep);
    } else {
      assert "" + x == x;
    }
  }

  lemma CharsOfElementText(start: XmlEvent, t: string)
    requires start.StartElement?
    ensures CharsOf(Element(start, [Characters(t)])) == t
  {
    CharsOfElement(start, [Characters(t)]);
    CharsOfOne(Characters(t));
  }

  lemma CharsOfElementTexts(start: XmlEvent, t: string, u: string)
    requires start.StartElement?
    ensures CharsOf(Element(start, [Characters(t), Characters(u)])) == t + u
  {
    CharsOfElement(start, [Characters(t), Characters(u)]);
    CharsOfOne(Characters(t));
    CharsOfSnoc([Characters(t)], u);
    assert [Characters(t)] + [Characters(u)] == [Characters(t), Characters(u)];
  }

  lemma SelectiveSetsStep(init: seq<ColumnInfo>, c: ColumnInfo, key: string, fixComma: bool)
    ensures CharsOf(SelectiveSets(init + [c], key, fixComma)) ==
      CharsOf(SelectiveSets(init, key, fixComma)) + (if c.name == key then "" else SelectiveSet(c, fixComma))
    ensures NonKey(init + [c], key) == NonKey(init, key) + (if c.name == key then [] else [c])
  {
    var cols := init + [c];
    assert cols[..|cols| - 1] == init;
    var ss := SelectiveSets(init, key, fixComma);
    if c.name == key {
      assert ss + [] == ss;
    } else {
      CharsOfElementText(IfStart(c), SelectiveSet(c, fixComma));
      CharsOfAppend(ss, SelectiveIf(c, fixComma));
    }
  }

  /** The text of the selective update's ifs: the SET item of every column
      but the key, each followed by the separator. */
  lemma {:induction false} SelectiveSetsText(cols: seq<ColumnInfo>, key: string, fixComma: bool)
    ensures CharsOf(SelectiveSets(cols, key, fixComma)) == Terminated(SetItems(NonKey(cols, key)), SelectiveSep(fixComma))
    decreases |cols|
  {
    if cols != [] {
      var init, c := cols[..|cols| - 1], cols[|cols| - 1];
      assert cols == init + [c];
      SelectiveSetsText(init, key, fixComma);
      SelectiveSetsStep(init, c, key, fixComma);
      var nk := NonKey(init, key);
      if c.name == key {
        assert nk + [] == nk;
      } else {
        TerminatedSnoc(SetItems(nk), SetItem(c), SelectiveSep(fixComma));
        SetItemsSnoc(nk, c);
      }
    }
  }

  lemma SetItemsSnoc(cols: seq<ColumnInfo>, c: ColumnInfo)
    ensures SetItems(cols + [c]) == SetItems(cols) + [SetItem(c)]
  {
  }

  lemma TerminatedSnoc(items: seq<string>, x: string, sep: string)
    ensures Terminated(items + [x], sep) == Terminated(items, sep) + (x + sep)
  {
    assert (items + [x])[..|items|] == items;
  }

  /** The text of the insert's column ifs: each name followed by ",". */
  lemma {:induction false} IfColumnsText(cols: seq<ColumnInfo>)
    ensures CharsOf(IfColumns(cols)) == Terminated(NormNames(cols), ",")
    decreases |cols|
  {
    if cols != [] {
      var init, c := cols[..|cols| - 1], cols[|cols| - 1];
      IfColumnsText(init);
      CharsOfElementTexts(IfStart(c), Normalize(c.name), ",");
      CharsOfAppend(IfColumns(init), IfColumn(c));
      assert NormNames(cols)[..|cols| - 1] == NormNames(init);
      AppendAssoc(Terminated(NormNames(init), ","), Normalize(c.name), ",");
    }
  }

  /** The text of the insert's value ifs: each placeholder followed by ",". */
  lemma {:induction false} IfValuesText(cols: seq<ColumnInfo>)
    ensures CharsOf(IfValues(cols)) == Terminated(ValueWraps(cols), ",")
    decreases |cols|
  {
    if cols != [] {
      var init, c := cols[..|cols| - 1], cols[|cols| - 1];
      IfValuesText(init);
      CharsOfElementTexts(IfStart(c), Placeholder(Normalize(c.name)), ",");
      CharsOfAppend(IfValues(init), IfValue(c));
      assert ValueWraps(cols)[..|cols| - 1] == ValueWraps(init);
      AppendAssoc(Terminated(ValueWraps(init), ","), Placeholder(Normalize(c.name)), ",");
    }
  }

  lemma TrimFinalComma(y: string, prefix: string, suffix: string)
    ensures YbString.TrimAsWritten(y + ",", prefix, suffix, "", ",") == Some(prefix + y + suffix)
  {
    var src := y + ",";
    assert src[0..0] == "";
    assert src[|src| - 1..] == ",";
    assert src[0..|src| - 1] == y;
  }

  lemma TrimFinalBlank(y: string)
    ensures YbString.TrimAsWritten(y + ", ", "", "", "", ",") == Some(y + ", ")
  {
    var src := y + ", ";
    assert src[0..0] == "";
    assert src[|src| - 1..] == " ";
    assert src[0..|src|] == src;
    assert "" + src + "" == src;
  }

  /** As written, the selective update's SET list keeps its final ", ":
      the trim's suffix override "," does not match the final blank, so
      the SQL carries a comma before WHERE. */
  lemma SelectiveUpdateKeepsComma(cols: seq<ColumnInfo>, key: string)
    requires NonKey(cols, key) != []
    ensures CharsOf(SelectiveSets(cols, key, false)) == Join(SetItems(NonKey(cols, key)), ", ") + ", "
    ensures YbString.TrimAsWritten(CharsOf(SelectiveSets(cols, key, false)), "", "", "", ",") ==
      Some(CharsOf(SelectiveSets(cols, key, false)))
  {
    SelectiveSetsText(cols, key, false);
    TerminatedJoin(SetItems(NonKey(cols, key)), ", ");
    TrimFinalBlank(Join(SetItems(NonKey(cols, key)), ", "));
  }

  /** With the items followed by "," the trim strips the last one, and the
      SET list is the items joined by ",". */
  lemma SelectiveUpdateFixedStrips(cols: seq<ColumnInfo>, key: string)
    requires NonKey(cols, key) != []
    ensures YbString.TrimAsWritten(CharsOf(SelectiveSets(cols, key, true)), "", "", "", ",") ==
      Some(Join(SetItems(NonKey(cols, key)), ","))
  {
    SelectiveSetsText(cols, key, true);
    TrimTerminated(SetItems(NonKey(cols, key)), "", "");
    EmptyAround(Join(SetItems(NonKey(cols, key)), ","));
  }

  lemma EmptyAround(s: string)
    ensures "" + s + "" == s
  {
  }

  /** Items each followed by "," come out of the trim joined by ",". */
  lemma TrimTerminated(items: seq<string>, prefix: string, suffix: string)
    requires items != []
    ensures YbString.TrimAsWritten(Terminated(items, ","), prefix, suffix, "", ",") ==
      Some(prefix + Join(items, ",") + suffix)
  {
    TerminatedJoin(items, ",");
    TrimFinalComma(Join(items, ","), prefix, suffix);
  }

  /** For the written events, the selective insert's trims turn the ifs'
      text into a parenthesised column list and a VALUES list of the same
      columns. The trim content is taken to be exactly the ifs' text: the
      blanks an indenting writer adds between the events are not modelled. */
  lemma InsertSelectiveTrims(cols: seq<ColumnInfo>)
    requires cols != []
    ensures YbString.TrimAsWritten(CharsOf(IfColumns(cols)), "(", ")", "", ",") ==
      Some("(" + Join(NormNames(cols), ",") + ")")
    ensures YbString.TrimAsWritten(CharsOf(IfValues(cols)), "VALUES (", ")", "", ",") ==
      Some("VALUES (" + Join(ValueWraps(cols), ",") + ")")
  {
    IfColumnsText(cols);
    IfValuesText(cols);
    TrimTerminated(NormNames(cols), "(", ")");
    TrimTerminated(ValueWraps(cols), "VALUES (", ")");
  }

  /** For the written events, when every field is null the trims get no
      text and fail, so neither selective statement can be prepared. */
  lemma SelectiveAllNullFails(key: string, fixComma: bool)
    ensures YbString.TrimAsWritten(CharsOf(SelectiveSets([], key, fixComma)), "", "", "", ",").None?
    ensures YbString.TrimAsWritten(CharsOf(IfColumns([])), "(", ")", "", ",").None?
  {
  }
}
