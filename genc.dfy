/** The C renderer of the code generator: what it writes into the mapper's
    header and source files for header guards, result-map structs with
    their constructor and destructor, the dynamic-SQL building code of each
    statement, the placeholder rewrite loop, and the statement functions.

    Each file is an `OutFile` whose content is the sequence of chunks
    written to it, one per write call. Every writer has a pure
    specification function giving the chunks it appends; the properties
    are lemmas about those functions. Known flaws of the generator are
    specified as written; where a flaw is reported, the specification
    takes a `Fixes` value selecting the corrected emission, and
    `AsWritten` selects the generator's own. */
module GenC {
  import opened Base
  import opened GenMapper

  /** Which corrections to apply: the missing terminator of the include
      line, the doubled free of cmd, the select definition lacking the out
      parameter, and the bind_out memset clearing bind. */
  datatype Fixes = Fixes(includeEnd: bool, doubleFree: bool, selectSignature: bool, bindOutMemset: bool)

  const AsWritten: Fixes := Fixes(false, false, false, false)
  const Corrected: Fixes := Fixes(true, true, true, true)

  /** An output file: the chunks written to it, in order. */
  class OutFile {
    var chunks: seq<string>

    constructor()
      ensures chunks == []
    {
      chunks := [];
    }

    method Write(s: string)
      modifies this
      ensures chunks == old(chunks) + [s]
    {
      chunks := chunks + [s];
    }
  }

  // ---------------------------------------------------------------------
  // Header guard

  function GuardToken(ns: string): string
  {
    "YB_" + Upper(ns) + "_H__"
  }

  /** write_guard_start. */
  function GuardStart(ns: string): seq<string>
  {
    ["#ifndef ", GuardToken(ns), "\n", "#define ", GuardToken(ns), "\n\n"]
  }

  /** write_guard_end. */
  function GuardEnd(ns: string): seq<string>
  {
    ["#endif // ", GuardToken(ns), "\n\n"]
  }

  /** The guard opens with `#ifndef T` and `#define T` and closes with a
      `#endif // T` comment, all with the same token T, which is "YB_",
      the upper-cased namespace and "_H__", and holds no lower-case letter. */
  lemma GuardTokenShared(ns: string)
    ensures var t := GuardToken(ns);
      GuardStart(ns)[0] == "#ifndef " && GuardStart(ns)[1] == t &&
      GuardStart(ns)[3] == "#define " && GuardStart(ns)[4] == t &&
      GuardEnd(ns)[0] == "#endif // " && GuardEnd(ns)[1] == t &&
      StartsWith(t, "YB_") && EndsWith(t, "_H__") && |t| == |ns| + 7 &&
      t[3..3 + |ns|] == Upper(ns) &&
      forall i :: 0 <= i < |t| ==> !('a' <= t[i] <= 'z')
  {
    var t := GuardToken(ns);
    assert t[3..3 + |ns|] == Upper(ns);
    assert t[|t| - 4..] == "_H__";
    forall i | 0 <= i < |t|
      ensures !('a' <= t[i] <= 'z')
    {
      if 3 <= i < 3 + |ns| {
        assert t[i] == Upper(ns)[i - 3];
      }
    }
  }

  /** write_includes: the mapper's own header, then the runtime's. */
  function Includes(filenameH: string): seq<string>
  {
    ["#include \"", filenameH, "\"\n\n", "#include \"yb_common.h\"\n\n"]
  }

  // ---------------------------------------------------------------------
  // Escaping of text literals

  /** What the renderer does to a text before putting it between double
      quotes: every line feed becomes backslash-n and every carriage return
      backslash-r; nothing else is escaped. */
  function Escape(t: string): string
  {
    ReplaceChar(ReplaceChar(t, '\n', "\\n"), '\r', "\\r")
  }

  function EscapeOne(c: char): string
  {
    if c == '\n' then "\\n" else if c == '\r' then "\\r" else [c]
  }

  lemma EscapeCons(t: string)
    requires t != []
    ensures Escape(t) == EscapeOne(t[0]) + Escape(t[1..])
  {
    var inner := ReplaceChar(t[1..], '\n', "\\n");
    var head := if t[0] == '\n' then "\\n" else [t[0]];
    assert ReplaceChar(t, '\n', "\\n") == head + inner;
    ReplaceCharAppend(head, inner, '\r', "\\r");
    if t[0] == '\n' {
      assert ReplaceChar(head, '\r', "\\r") == "\\n" by {
        assert head == ['\\'] + ['n'];
        ReplaceCharAppend(['\\'], ['n'], '\r', "\\r");
      }
    } else {
      assert ReplaceChar(head, '\r', "\\r") == (if t[0] == '\r' then "\\r" else [t[0]] ) + ReplaceChar([], '\r', "\\r");
    }
  }

  /** The text a C string literal's body denotes, for bodies that use only
      the escapes \n, \r, \\ and \"; None when the body is not such a
      literal body (an unescaped double quote, a raw line break, a dangling
      or other backslash). */
  function CLiteral(s: string): Option<string>
  {
    if s == [] then Some([])
    else if s[0] == '"' || s[0] == '\n' || s[0] == '\r' then None
    else if s[0] == '\\' then
      if |s| < 2 then None
      else
        var c := s[1];
        var d := if c == 'n' then '\n' else if c == 'r' then '\r' else c;
        if c == 'n' || c == 'r' || c == '\\' || c == '"' then
          match CLiteral(s[2..])
          case None => None
          case Some(rest) => Some([d] + rest)
        else None
    else
      match CLiteral(s[1..])
      case None => None
      case Some(rest) => Some([s[0]] + rest)
  }

  predicate NoQuoteOrBackslash(t: string)
  {
    forall i :: 0 <= i < |t| ==> t[i] != '"' && t[i] != '\\'
  }

  /** The escaped text has no raw line break, and the C literal made from
      it denotes the text whenever the text has no double quote and no
      backslash. */
  lemma {:induction false} EscapeRoundTrip(t: string)
    requires NoQuoteOrBackslash(t)
    ensures CLiteral(Escape(t)) == Some(t)
    ensures forall i :: 0 <= i < |Escape(t)| ==> Escape(t)[i] != '\n' && Escape(t)[i] != '\r'
    decreases |t|
  {
    if t != [] {
      EscapeCons(t);
      EscapeRoundTrip(t[1..]);
      var e := Escape(t);
      var r := Escape(t[1..]);
      assert [t[0]] + t[1..] == t;
      if t[0] == '\n' || t[0] == '\r' {
        assert e[0] == '\\' && e[2..] == r;
      } else {
        assert e[0] == t[0] && e[1..] == r;
      }
    }
  }

  /** A text with a double quote ends the literal early; a backslash
      followed by n turns into a line feed. */
  lemma EscapeNotInvertible()
    ensures Escape("a\"b") == "a\"b" && CLiteral(Escape("a\"b")) == None
    ensures Escape("\\n") == "\\n" && CLiteral(Escape("\\n")) == Some("\n")
  {
    EscapeCons("a\"b");
    EscapeCons("\"b");
    EscapeCons("b");
    assert "a\"b"[1..] == "\"b";
    assert "\"b"[1..] == "b";
    assert "b"[1..] == "";
    assert Escape("") == "";
    assert CLiteral("\"b") == None;
    EscapeCons("\\n");
    EscapeCons("n");
    assert EscapeOne('\\') == "\\" && EscapeOne('n') == "n";
    assert Escape("\\n") == "\\" + ("n" + "");
    assert "\\" + ("n" + "") == "\\n";
    assert CLiteral("\\n"[2..]) == Some("");
    assert ['\n'] + "" == "\n";
    assert "\\n"[1..] == "n";
    assert "n"[1..] == "";
    assert "\\n"[2..] == "";
  }

  /** The evidently intended escaping: also backslash and double quote. */
  function EscapeFixed(t: string): string
  {
    if t == [] then ""
    else
      var c := t[0];
      (if c == '\n' then "\\n" else if c == '\r' then "\\r"
       else if c == '\\' then "\\\\" else if c == '"' then "\\\"" else [c])
      + EscapeFixed(t[1..])
  }

  /** The corrected literal denotes every text. */
  lemma {:induction false} EscapeFixedRoundTrip(t: string)
    ensures CLiteral(EscapeFixed(t)) == Some(t)
    decreases |t|
  {
    if t != [] {
      EscapeFixedRoundTrip(t[1..]);
      var e := EscapeFixed(t);
      var c := t[0];
      assert [c] + t[1..] == t;
      if c == '\n' || c == '\r' || c == '\\' || c == '"' {
        assert e[0] == '\\' && e[2..] == EscapeFixed(t[1..]);
      } else {
        assert e[0] == c && e[1..] == EscapeFixed(t[1..]);
      }
    }
  }

  // ---------------------------------------------------------------------
  // Result maps: struct, constructor, destructor

  function MemberLine(r: YoResult): string
  {
    "    " + r.yoType + " " + r.property + ";\n"
  }

  /** One member line per result, in declared order. */
  function MemberLines(rs: seq<YoResult>): (r: seq<string>)
    ensures |r| == |rs|
    ensures forall k :: 0 <= k < |rs| ==> r[k] == MemberLine(rs[k])
  {
    if rs == [] then [] else MemberLines(rs[..|rs| - 1]) + [MemberLine(rs[|rs| - 1])]
  }

  /** write_result_map_define: what it appends to the header. */
  function StructLines(rm: YoResultMap): seq<string>
  {
    ["struct " + rm.type_ + "_s {\n"] + MemberLines(rm.results) +
    ["};\n", "typedef struct " + rm.type_ + "_s* " + rm.type_ + ";\n"]
  }

  /** The null sentinel a constructor assigns to a field of a type, if the
      type is supported. */
  function Sentinel(yoType: string): Option<string>
  {
    if yoType == "int64_t" then Some("YB_INT_NULL")
    else if yoType == "double" then Some("YB_FLOAT_NULL")
    else if yoType == "yb_string_t" then Some("YB_STRING_NULL")
    else None
  }

  function InitLine(r: YoResult, sentinel: string): string
  {
    "    n->" + r.property + " = " + sentinel + ";\n"
  }

  /** The constructor's assignments, failing at the first unsupported type. */
  function InitLines(rs: seq<YoResult>): Result<seq<string>>
  {
    if rs == [] then Success([])
    else
      match InitLines(rs[..|rs| - 1])
      case Failure(e) => Failure(e)
      case Success(init) =>
        var r := rs[|rs| - 1];
        match Sentinel(r.yoType)
        case None => Failure("unsupported type: " + r.yoType)
        case Some(v) => Success(init + [InitLine(r, v)])
  }

  predicate AllSupported(rs: seq<YoResult>)
  {
    forall k :: 0 <= k < |rs| ==> Sentinel(rs[k].yoType).Some?
  }

  /** The constructor assigns one sentinel per field, in declared order,
      and fails exactly when some field's type is unsupported. */
  lemma {:induction false} InitLinesMeaning(rs: seq<YoResult>)
    ensures InitLines(rs).Success? <==> AllSupported(rs)
    ensures InitLines(rs).Success? ==>
      |InitLines(rs).value| == |rs| &&
      forall k :: 0 <= k < |rs| ==> InitLines(rs).value[k] == InitLine(rs[k], Sentinel(rs[k].yoType).value)
    decreases |rs|
  {
    if rs != [] {
      var init := rs[..|rs| - 1];
      InitLinesMeaning(init);
      assert forall k :: 0 <= k < |init| ==> init[k] == rs[k];
    }
  }

  /** The sentinels are those the runtime header defines for each type. */
  lemma SentinelTable()
    ensures Sentinel("int64_t") == Some("YB_INT_NULL")
    ensures Sentinel("double") == Some("YB_FLOAT_NULL")
    ensures Sentinel("yb_string_t") == Some("YB_STRING_NULL")
    ensures forall t :: t != "int64_t" && t != "double" && t != "yb_string_t" ==> Sentinel(t).None?
  {
  }

  function NewDecl(rm: YoResultMap): string
  {
    rm.type_ + " " + rm.type_ + "_new();\n"
  }

  function NewHead(rm: YoResultMap): seq<string>
  {
    [rm.type_ + " " + rm.type_ + "_new() {\n",
     "    " + rm.type_ + " n = (" + rm.type_ + ")malloc(sizeof(struct " + rm.type_ + "_s));\n"]
  }

  const NewTail: string := "    return n;\n}\n\n"

  /** write_result_map_new: what it appends to the source file. */
  function NewLines(rm: YoResultMap): Result<seq<string>>
  {
    match InitLines(rm.results)
    case Failure(e) => Failure(e)
    case Success(inits) => Success(NewHead(rm) + inits + [NewTail])
  }

  function FreeStmt(property: string): string
  {
    "    if (n->" + property + " != YB_STRING_NULL) {\n        yb_string_free(n->" + property + ");\n    }\n"
  }

  /** The destructor's guarded frees, for the yb_string_t fields only. */
  function FreeFieldLines(rs: seq<YoResult>): seq<string>
  {
    if rs == [] then []
    else
      var init := FreeFieldLines(rs[..|rs| - 1]);
      var r := rs[|rs| - 1];
      if r.yoType == "yb_string_t" then init + [FreeStmt(r.property)] else init
  }

  function CountStrings(rs: seq<YoResult>): nat
  {
    if rs == [] then 0
    else CountStrings(rs[..|rs| - 1]) + (if rs[|rs| - 1].yoType == "yb_string_t" then 1 else 0)
  }

  /** The destructor frees exactly the yb_string_t fields, one guarded free
      each, and nothing for the other fields. */
  lemma {:induction false} FreeFieldLinesMeaning(rs: seq<YoResult>)
    ensures |FreeFieldLines(rs)| == CountStrings(rs)
    ensures forall k :: 0 <= k < |rs| && rs[k].yoType == "yb_string_t" ==> FreeStmt(rs[k].property) in FreeFieldLines(rs)
    ensures forall l :: l in FreeFieldLines(rs) ==>
      exists k :: 0 <= k < |rs| && rs[k].yoType == "yb_string_t" && l == FreeStmt(rs[k].property)
    decreases |rs|
  {
    if rs != [] {
      var init := rs[..|rs| - 1];
      FreeFieldLinesMeaning(init);
      assert forall k :: 0 <= k < |init| ==> init[k] == rs[k];
      forall l | l in FreeFieldLines(rs)
        ensures exists k :: 0 <= k < |rs| && rs[k].yoType == "yb_string_t" && l == FreeStmt(rs[k].property)
      {
        if l in FreeFieldLines(init) {
          var k :| 0 <= k < |init| && init[k].yoType == "yb_string_t" && l == FreeStmt(init[k].property);
          assert rs[k] == init[k];
        } else {
          assert rs[|rs| - 1].yoType == "yb_string_t" && l == FreeStmt(rs[|rs| - 1].property);
        }
      }
    }
  }

  function FreeDecl(rm: YoResultMap): string
  {
    "void " + rm.type_ + "_free(" + rm.type_ + ");\n"
  }

  const FreeTail: string := "    free(n);\n}\n\n"

  /** write_result_map_free: what it appends to the source file. */
  function FreeLines(rm: YoResultMap): seq<string>
  {
    ["void " + rm.type_ + "_free(" + rm.type_ + " n) {\n"] + FreeFieldLines(rm.results) + [FreeTail]
  }

  // ---------------------------------------------------------------------
  // The dynamic-SQL building code (write_sql_gen_stmt and the if and trim
  // writers)

  function TmpName(n: int): string
  {
    "tmp_" + IntToString(n)
  }

  /** Different counter values name different buffers. */
  lemma TmpNameInjective(a: int, b: int)
    requires TmpName(a) == TmpName(b)
    ensures a == b
  {
    assert TmpName(a)[4..] == IntToString(a);
    assert TmpName(b)[4..] == IntToString(b);
    IntToStringInjective(a, b);
  }

  function TextLine(indent: nat, val: string, t: string): string
  {
    Spaces(indent) + "yb_string_append_c_str(" + val + ", \"" + Escape(t) + "\");\n"
  }

  /** The include line; as written it lacks the closing ";\n". */
  function IncludeLine(fixed: bool, indent: nat, val: string, text: string): string
  {
    Spaces(indent) + "yb_string_append_c_str(" + val + ", \"" + Escape(text) + "\")" + (if fixed then ";\n" else "")
  }

  function IfOpen(indent: nat, test: string): string
  {
    Spaces(indent) + "if (n->" + test + ") {\n"
  }

  function TmpDecl(indent: nat, tmp: string): string
  {
    Spaces(indent) + "yb_string_t " + tmp + " = yb_string_new();\n"
  }

  function AppendTmp(indent: nat, val: string, tmp: string): string
  {
    Spaces(indent) + "yb_string_append(" + val + ", " + tmp + ");\n"
  }

  function FreeTmp(indent: nat, tmp: string): string
  {
    Spaces(indent) + "yb_string_free(" + tmp + ");\n"
  }

  function CloseBrace(indent: nat): string
  {
    Spaces(indent) + "}\n"
  }

  /** The trim call; its destination is the enclosing buffer itself. */
  function TrimLine(indent: nat, tmp: string, prefix: string, suffix: string, prefixOverrides: string,
                    suffixOverrides: string, dest: string): string
  {
    Spaces(indent) + "yb_string_trim(" + tmp + ", \"" + prefix + "\", \"" + suffix + "\", \"" +
    prefixOverrides + "\", \"" + suffixOverrides + "\", " + dest + ");\n"
  }

  /** The chunks written for a list of elements into buffer `val`, and the
      counter afterwards. */
  datatype Rendered = Rendered(lines: seq<string>, next: int)

  function RenderElems(fixInclude: bool, indent: nat, sqls: map<string, YoSql>, elems: seq<SqlElement>,
                       val: string, inc: int): Result<Rendered>
    decreases elems
  {
    if elems == [] then Success(Rendered([], inc))
    else
      match RenderElems(fixInclude, indent, sqls, elems[..|elems| - 1], val, inc)
      case Failure(e) => Failure(e)
      case Success(a) =>
        match RenderElem(fixInclude, indent, sqls, elems[|elems| - 1], val, a.next)
        case Failure(e) => Failure(e)
        case Success(b) => Success(Rendered(a.lines + b.lines, b.next))
  }

  function RenderElem(fixInclude: bool, indent: nat, sqls: map<string, YoSql>, e: SqlElement,
                      val: string, inc: int): Result<Rendered>
    decreases e
  {
    match e
    case YoText(t) => Success(Rendered([TextLine(indent, val, t)], inc))
    case YoInclude(refid) =>
      if refid in sqls then Success(Rendered([IncludeLine(fixInclude, indent, val, sqls[refid].text)], inc))
      else Failure("include sql not found: " + refid)
    case YoIf(test, content) =>
      var tmp := TmpName(inc);
      (match RenderElems(fixInclude, indent + 4, sqls, content, tmp, inc + 1)
       case Failure(err) => Failure(err)
       case Success(body) =>
         Success(Rendered([IfOpen(indent, test), TmpDecl(indent + 4, tmp)] + body.lines +
                          [AppendTmp(indent + 4, val, tmp), FreeTmp(indent + 4, tmp), CloseBrace(indent)],
                          body.next)))
    case YoTrim(prefix, suffix, suffixOverrides, prefixOverrides, content) =>
      var tmp := TmpName(inc);
      match RenderElems(fixInclude, indent, sqls, content, tmp, inc + 1)
      case Failure(err) => Failure(err)
      case Success(body) =>
        Success(Rendered([TmpDecl(indent, tmp)] + body.lines +
                         [TrimLine(indent, tmp, prefix, suffix, prefixOverrides, suffixOverrides, val),
                          FreeTmp(indent, tmp)],
                         body.next))
  }

  /** The number of if and trim elements at any depth. */
  function Blocks(elems: seq<SqlElement>): nat
    decreases elems
  {
    if elems == [] then 0 else Blocks(elems[..|elems| - 1]) + ElemBlocks(elems[|elems| - 1])
  }

  function ElemBlocks(e: SqlElement): nat
    decreases e
  {
    match e
    case YoIf(_, content) => 1 + Blocks(content)
    case YoTrim(_, _, _, _, content) => 1 + Blocks(content)
    case _ => 0
  }

  /** Each if and each trim consumes exactly one counter value: the counter
      afterwards is the counter before plus the number of if and trim
      elements. A statement starts at 0, so its buffers are tmp_0 up to
      tmp_(n-1), all different by TmpNameInjective. */
  lemma {:induction false} RenderCounter(fixInclude: bool, indent: nat, sqls: map<string, YoSql>,
                                         elems: seq<SqlElement>, val: string, inc: int)
    requires RenderElems(fixInclude, indent, sqls, elems, val, inc).Success?
    ensures RenderElems(fixInclude, indent, sqls, elems, val, inc).value.next == inc + Blocks(elems)
    decreases elems
  {
    if elems != [] {
      var init := elems[..|elems| - 1];
      RenderCounter(fixInclude, indent, sqls, init, val, inc);
      var a := RenderElems(fixInclude, indent, sqls, init, val, inc).value;
      RenderElemCounter(fixInclude, indent, sqls, elems[|elems| - 1], val, a.next);
    }
  }

  lemma {:induction false} RenderElemCounter(fixInclude: bool, indent: nat, sqls: map<string, YoSql>,
                                             e: SqlElement, val: string, inc: int)
    requires RenderElem(fixInclude, indent, sqls, e, val, inc).Success?
    ensures RenderElem(fixInclude, indent, sqls, e, val, inc).value.next == inc + ElemBlocks(e)
    decreases e
  {
    match e
    case YoIf(test, content) =>
      RenderCounter(fixInclude, indent + 4, sqls, content, TmpName(inc), inc + 1);
    case YoTrim(_, _, _, _, content) =>
      RenderCounter(fixInclude, indent, sqls, content, TmpName(inc), inc + 1);
    case _ =>
  }

  /** Every include, at any depth, names a fragment of the mapper. */
  predicate IncludesResolved(elems: seq<SqlElement>, sqls: map<string, YoSql>)
    decreases elems
  {
    forall k :: 0 <= k < |elems| ==> ElemResolved(elems[k], sqls)
  }

  predicate ElemResolved(e: SqlElement, sqls: map<string, YoSql>)
    decreases e
  {
    match e
    case YoInclude(refid) => refid in sqls
    case YoIf(_, content) => IncludesResolved(content, sqls)
    case YoTrim(_, _, _, _, content) => IncludesResolved(content, sqls)
    case YoText(_) => true
  }

  /** Rendering fails exactly when some include, at any depth, names a
      fragment the mapper lacks; the error of a nested element aborts the
      whole list. */
  lemma {:induction false} RenderSucceeds(fixInclude: bool, indent: nat, sqls: map<string, YoSql>,
                                          elems: seq<SqlElement>, val: string, inc: int)
    ensures RenderElems(fixInclude, indent, sqls, elems, val, inc).Success? <==> IncludesResolved(elems, sqls)
    decreases elems
  {
    if elems != [] {
      var init := elems[..|elems| - 1];
      var last := elems[|elems| - 1];
      RenderSucceeds(fixInclude, indent, sqls, init, val, inc);
      assert IncludesResolved(elems, sqls) <==> IncludesResolved(init, sqls) && ElemResolved(last, sqls) by {
        if IncludesResolved(init, sqls) && ElemResolved(last, sqls) {
          forall k | 0 <= k < |elems|
            ensures ElemResolved(elems[k], sqls)
          {
            if k < |init| {
              assert elems[k] == init[k];
            }
          }
        }
        if IncludesResolved(elems, sqls) {
          forall k | 0 <= k < |init|
            ensures ElemResolved(init[k], sqls)
          {
            assert init[k] == elems[k];
          }
        }
      }
      if RenderElems(fixInclude, indent, sqls, init, val, inc).Success? {
        var a := RenderElems(fixInclude, indent, sqls, init, val, inc).value;
        RenderElemSucceeds(fixInclude, indent, sqls, last, val, a.next);
      }
    }
  }

  lemma {:induction false} RenderElemSucceeds(fixInclude: bool, indent: nat, sqls: map<string, YoSql>,
                                              e: SqlElement, val: string, inc: int)
    ensures RenderElem(fixInclude, indent, sqls, e, val, inc).Success? <==> ElemResolved(e, sqls)
    decreases e
  {
    match e
    case YoIf(test, content) =>
      RenderSucceeds(fixInclude, indent + 4, sqls, content, TmpName(inc), inc + 1);
    case YoTrim(_, _, _, _, content) =>
      RenderSucceeds(fixInclude, indent, sqls, content, TmpName(inc), inc + 1);
    case _ =>
  }

  /** A chunk that ends a line. */
  predicate Terminated(l: string)
  {
    |l| > 0 && l[|l| - 1] == '\n'
  }

  predicate AllTerminated(lines: seq<string>)
  {
    forall k :: 0 <= k < |lines| ==> Terminated(lines[k])
  }

  lemma AllTerminatedAppend(a: seq<string>, b: seq<string>)
    requires AllTerminated(a) && AllTerminated(b)
    ensures AllTerminated(a + b)
  {
  }

  lemma TerminatedLine(front: string, lit: string)
    requires Terminated(lit)
    ensures Terminated(front + lit)
  {
  }

  /** With the include line terminated, every chunk of building code ends
      a line. */
  lemma {:induction false} RenderLinesTerminated(indent: nat, sqls: map<string, YoSql>,
                                                 elems: seq<SqlElement>, val: string, inc: int)
    requires RenderElems(true, indent, sqls, elems, val, inc).Success?
    ensures AllTerminated(RenderElems(true, indent, sqls, elems, val, inc).value.lines)
    decreases elems
  {
    if elems != [] {
      var init := elems[..|elems| - 1];
      RenderLinesTerminated(indent, sqls, init, val, inc);
      var a := RenderElems(true, indent, sqls, init, val, inc).value;
      RenderElemLinesTerminated(indent, sqls, elems[|elems| - 1], val, a.next);
      var b := RenderElem(true, indent, sqls, elems[|elems| - 1], val, a.next).value;
      AllTerminatedAppend(a.lines, b.lines);
    }
  }

  lemma {:induction false} RenderElemLinesTerminated(indent: nat, sqls: map<string, YoSql>,
                                                     e: SqlElement, val: string, inc: int)
    requires RenderElem(true, indent, sqls, e, val, inc).Success?
    ensures AllTerminated(RenderElem(true, indent, sqls, e, val, inc).value.lines)
    decreases e
  {
    var tmp := TmpName(inc);
    match e
    case YoText(t) =>
      TerminatedLine(Spaces(indent) + "yb_string_append_c_str(" + val + ", \"" + Escape(t), "\");\n");
    case YoInclude(refid) =>
      TerminatedLine(Spaces(indent) + "yb_string_append_c_str(" + val + ", \"" + Escape(sqls[refid].text) + "\")", ";\n");
    case YoIf(test, content) =>
      RenderLinesTerminated(indent + 4, sqls, content, tmp, inc + 1);
      IfBlockTerminated(indent, test, val, tmp, RenderElems(true, indent + 4, sqls, content, tmp, inc + 1).value.lines);
    case YoTrim(prefix, suffix, suffixOverrides, prefixOverrides, content) =>
      RenderLinesTerminated(indent, sqls, content, tmp, inc + 1);
      TrimBlockTerminated(indent, tmp, prefix, suffix, prefixOverrides, suffixOverrides, val,
                          RenderElems(true, indent, sqls, content, tmp, inc + 1).value.lines);
  }

  lemma IfBlockTerminated(indent: nat, test: string, val: string, tmp: string, body: seq<string>)
    requires AllTerminated(body)
    ensures AllTerminated([IfOpen(indent, test), TmpDecl(indent + 4, tmp)] + body +
                          [AppendTmp(indent + 4, val, tmp), FreeTmp(indent + 4, tmp), CloseBrace(indent)])
  {
    TerminatedLine(Spaces(indent) + "if (n->" + test, ") {\n");
    TerminatedLine(Spaces(indent + 4) + "yb_string_t " + tmp, " = yb_string_new();\n");
    TerminatedLine(Spaces(indent + 4) + "yb_string_append(" + val + ", " + tmp, ");\n");
    TerminatedLine(Spaces(indent + 4) + "yb_string_free(" + tmp, ");\n");
    TerminatedLine(Spaces(indent), "}\n");
    var pre := [IfOpen(indent, test), TmpDecl(indent + 4, tmp)];
    var post := [AppendTmp(indent + 4, val, tmp), FreeTmp(indent + 4, tmp), CloseBrace(indent)];
    AllTerminatedAppend(pre, body);
    AllTerminatedAppend(pre + body, post);
  }

  lemma TrimBlockTerminated(indent: nat, tmp: string, prefix: string, suffix: string, prefixOverrides: string,
                            suffixOverrides: string, val: string, body: seq<string>)
    requires AllTerminated(body)
    ensures AllTerminated([TmpDecl(indent, tmp)] + body +
                          [TrimLine(indent, tmp, prefix, suffix, prefixOverrides, suffixOverrides, val), FreeTmp(indent, tmp)])
  {
    TerminatedLine(Spaces(indent) + "yb_string_t " + tmp, " = yb_string_new();\n");
    TerminatedLine(Spaces(indent) + "yb_string_trim(" + tmp + ", \"" + prefix + "\", \"" + suffix + "\", \"" +
                   prefixOverrides + "\", \"" + suffixOverrides + "\", " + val, ");\n");
    TerminatedLine(Spaces(indent) + "yb_string_free(" + tmp, ");\n");
    var pre := [TmpDecl(indent, tmp)];
    var post := [TrimLine(indent, tmp, prefix, suffix, prefixOverrides, suffixOverrides, val), FreeTmp(indent, tmp)];
    AllTerminatedAppend(pre, body);
    AllTerminatedAppend(pre + body, post);
  }

  /** As written, an include's chunk does not end its line, so the next
      statement is written onto the same line after the unterminated call. */
  lemma IncludeLineUnterminated(indent: nat, val: string, text: string)
    ensures !Terminated(IncludeLine(false, indent, val, text))
    ensures EndsWith(IncludeLine(false, indent, val, text), "\")")
    ensures EndsWith(IncludeLine(true, indent, val, text), "\");\n")
  {
    var l := IncludeLine(false, indent, val, text);
    assert l[|l| - 2..] == "\")";
    assert l[|l| - 1] == l[|l| - 2..][1];
    var l' := IncludeLine(true, indent, val, text);
    assert l'[|l'| - 4..] == "\");\n";
  }

  // ---------------------------------------------------------------------
  // The placeholder rewrite loop written into each statement function

  /** How a parameter field is bound: by address as a 64-bit integer or a
      double, or by data and length as a string. */
  datatype BindKind = LongLong | Double | StringBind

  function BindKindOf(yoType: string): BindKind
  {
    if yoType == "int64_t" then LongLong else if yoType == "double" then Double else StringBind
  }

  /** The bind chunk for one field. */
  function BindChunk(kind: BindKind, property: string): string
  {
    match kind
    case LongLong =>
      "\n" + Spaces(16) + "bind[bind_num].buffer_type = MYSQL_TYPE_LONGLONG;\n" +
      Spaces(16) + "bind[bind_num].buffer = &n->" + property + ";\n" +
      Spaces(16) + "++bind_num;\n"
    case Double =>
      "\n" + Spaces(16) + "bind[bind_num].buffer_type = MYSQL_TYPE_DOUBLE;\n" +
      Spaces(16) + "bind[bind_num].buffer = &n->" + property + ";\n" +
      Spaces(16) + "++bind_num;\n"
    case StringBind =>
      "\n" + Spaces(16) + "bind[bind_num].buffer_type = MYSQL_TYPE_STRING;\n" +
      Spaces(16) + "bind[bind_num].buffer = yb_string_data(n->" + property + ");\n" +
      Spaces(16) + "bind[bind_num].buffer_length = yb_string_length(n->" + property + ");\n" +
      Spaces(16) + "++bind_num;\n"
  }

  /** The chunks for one parameter field: the name test (which, as written,
      holds when the names differ), the '?' append, the bind, the brace. */
  function FieldChunks(r: YoResult): seq<string>
  {
    [Spaces(12) + "if (yb_string_compare_cstr(val_tmp, \"" + r.property + "\")) {\n",
     Spaces(16) + "yb_string_append_c_str(prepare_sql, \"?\");\n",
     BindChunk(BindKindOf(r.yoType), r.property),
     Spaces(12) + "}\n"]
  }

  /** Four chunks per field, in declared order. */
  function FieldsChunks(rs: seq<YoResult>): (r: seq<string>)
    ensures |r| == 4 * |rs|
  {
    if rs == [] then [] else FieldsChunks(rs[..|rs| - 1]) + FieldChunks(rs[|rs| - 1])
  }

  /** The block of field `k` sits at chunks 4k to 4k + 4. */
  lemma {:induction false} FieldsChunksAt(rs: seq<YoResult>, k: nat)
    requires k < |rs|
    ensures FieldsChunks(rs)[4 * k..4 * k + 4] == FieldChunks(rs[k])
    decreases |rs|
  {
    var init := FieldsChunks(rs[..|rs| - 1]);
    var r := init + FieldChunks(rs[|rs| - 1]);
    assert |init| == 4 * (|rs| - 1);
    if k == |rs| - 1 {
      assert r[4 * k..4 * k + 4] == r[|init|..];
    } else {
      FieldsChunksAt(rs[..|rs| - 1], k);
      SliceAppendLeft(init, FieldChunks(rs[|rs| - 1]), 4 * k, 4 * k + 4);
      assert rs[..|rs| - 1][k] == rs[k];
    }
  }

  const LoopHead: seq<string> := [
    Spaces(4) + "for (int64_t i = 0; i < yb_string_length(cmd); ++i) {\n",
    Spaces(8) + "if (i < yb_string_length(cmd) - 1 && yb_string_data(cmd)[i] == '#' && yb_string_data(cmd)[i+1] == '{') {\n",
    Spaces(12) + "yb_string_append_data(prepare_sql, yb_string_data(cmd)+pre, i-pre);\n" + Spaces(12) + "pre = i + 2;\n",
    Spaces(12) + "while (pre < yb_string_length(cmd) && yb_string_data(cmd)[pre] != '}') {\n" + Spaces(16) + "++pre;\n" + Spaces(12) + "}\n",
    Spaces(12) + "yb_string_t val_tmp = yb_string_new();\n" + Spaces(12) + "yb_string_ref_data(val_tmp, yb_string_data(cmd)+i+2, pre - i - 2);\n",
    Spaces(12) + "i = pre;\n"]

  const LoopTail: seq<string> := [
    Spaces(8) + "}\n",
    Spaces(4) + "}\n",
    Spaces(4) + "yb_string_append_data(prepare_sql, yb_string_data(cmd)+pre, yb_string_length(cmd)-pre);\n"]

  /** write_cmd_to_prepare_sql. */
  function PrepareLoopLines(rs: seq<YoResult>): seq<string>
  {
    LoopHead + FieldsChunks(rs) + LoopTail
  }

  /** The field tests follow the loop head, one block per field in declared
      order, and each field is bound by the kind its type selects. */
  lemma PrepareLoopFields(rs: seq<YoResult>, k: nat)
    requires k < |rs|
    ensures var l := PrepareLoopLines(rs);
      |l| == 9 + 4 * |rs| &&
      l[6 + 4 * k] == Spaces(12) + "if (yb_string_compare_cstr(val_tmp, \"" + rs[k].property + "\")) {\n" &&
      l[8 + 4 * k] == BindChunk(BindKindOf(rs[k].yoType), rs[k].property)
    ensures rs[k].yoType == "int64_t" ==> BindKindOf(rs[k].yoType) == LongLong
    ensures rs[k].yoType == "double" ==> BindKindOf(rs[k].yoType) == Double
    ensures rs[k].yoType != "int64_t" && rs[k].yoType != "double" ==> BindKindOf(rs[k].yoType) == StringBind
  {
    var f := FieldsChunks(rs);
    LoopFrameLengths();
    FieldsChunksAt(rs, k);
    ChunkInBlock(f, 4 * k, FieldChunks(rs[k]));
    MiddleIndex(LoopHead, f, LoopTail, 4 * k);
    MiddleIndex(LoopHead, f, LoopTail, 4 * k + 2);
  }

  lemma LoopFrameLengths()
    ensures |LoopHead| == 6 && |LoopTail| == 3
  {
  }

  /** The four chunks of a block are the chunks at its offset. */
  lemma ChunkInBlock(f: seq<string>, i: nat, block: seq<string>)
    requires i + 4 <= |f| && f[i..i + 4] == block
    ensures f[i] == block[0] && f[i + 2] == block[2]
  {
    assert f[i] == f[i..i + 4][0] && f[i + 2] == f[i..i + 4][2];
  }

  /** An element of the middle part of a three-part sequence. */
  lemma MiddleIndex(a: seq<string>, f: seq<string>, b: seq<string>, i: nat)
    requires i < |f|
    ensures (a + f + b)[|a| + i] == f[i] && |a + f + b| == |a| + |f| + |b|
  {
  }

  // ---------------------------------------------------------------------
  // Statement functions

  /** What a statement writer appends to the header and to the source. */
  datatype Emitted = Emitted(h: seq<string>, c: seq<string>)

  function Signature(id: string, parameterType: string): string
  {
    "int " + id + "(MYSQL* conn, " + parameterType + " n"
  }

  const CmdDecl: string := "    yb_string_t cmd = yb_string_new();\n"
  const FreeCmd: string := "    yb_string_free(cmd);\n"

  function BindArray(name: string, n: nat): string
  {
    "    MYSQL_BIND " + name + "[" + NatToString(n) + "*2];\n"
  }

  function Memset(target: string, n: nat): string
  {
    "    memset(" + target + ", 0, sizeof(MYSQL_BIND)*" + NatToString(n) + "*2);\n"
  }

  const PrepareDecls: seq<string> := [
    "    yb_string_t prepare_sql = yb_string_new();\n",
    "    int64_t pre = 0;\n"]

  /** The bind array for the parameter fields. */
  function BindDecls(n: nat): seq<string>
  {
    [BindArray("bind", n), Memset("bind", n), "    int bind_num = 0;\n"]
  }

  /** The statement's execution and clean-up; as written cmd is freed twice. */
  function StmtTail(fx: Fixes): seq<string>
  {
    ["    MYSQL_STMT* stmt = mysql_stmt_init(NULL);\n",
     "    mysql_stmt_prepare(stmt, yb_string_data(prepare_sql), yb_string_length(prepare_sql));\n",
     "    mysql_stmt_bind_param(stmt, bind);\n",
     "    mysql_stmt_execute(stmt);\n",
     "    mysql_stmt_close(stmt);\n",
     "    yb_string_free(prepare_sql);\n",
     FreeCmd] +
    (if fx.doubleFree then [] else [FreeCmd]) +
    ["    return YB_OK;\n}\n\n"]
  }

  /** As written the tail frees cmd twice in a row; the corrected tail is
      the same without the second free. */
  lemma DoubleFreeOfCmd()
    ensures |StmtTail(AsWritten)| == 9 && StmtTail(AsWritten)[6] == FreeCmd && StmtTail(AsWritten)[7] == FreeCmd
    ensures StmtTail(Corrected) == StmtTail(AsWritten)[..7] + StmtTail(AsWritten)[8..]
    ensures StmtTail(Corrected)[7] != FreeCmd
  {
    assert |StmtTail(Corrected)[7]| != |FreeCmd|;
  }

  /** write_insert_fn and write_update_fn, which are the same but for the
      statement: the prototype, then the definition with the building code
      for cmd at indent 4 from counter 0, the binds for the parameter type's
      result map, the rewrite loop and the tail. A missing include, or a
      parameter type with no result map, fails. */
  function ModifyFn(fx: Fixes, id: string, parameterType: string, content: seq<SqlElement>, m: Mapper): Result<Emitted>
  {
    match RenderElems(fx.includeEnd, 4, m.sqls, content, "cmd", 0)
    case Failure(e) => Failure(e)
    case Success(body) =>
      if parameterType !in m.typeMaps then Failure("no result map of type " + parameterType)
      else
        var rm := m.typeMaps[parameterType];
        Success(Emitted(
          [Signature(id, parameterType) + ");\n"],
          [Signature(id, parameterType) + ") {\n", CmdDecl] + body.lines +
          (BindDecls(|rm.results|) + PrepareDecls + PrepareLoopLines(rm.results) + StmtTail(fx))))
  }

  /** A statement function is written exactly when its includes resolve and
      its parameter type names a result map. */
  lemma ModifyFnMeaning(fx: Fixes, id: string, parameterType: string, content: seq<SqlElement>, m: Mapper)
    ensures ModifyFn(fx, id, parameterType, content, m).Success? <==>
      IncludesResolved(content, m.sqls) && parameterType in m.typeMaps
  {
    RenderSucceeds(fx.includeEnd, 4, m.sqls, content, "cmd", 0);
    ModifyFnFails(fx, id, parameterType, content, m);
  }

  lemma ModifyFnFails(fx: Fixes, id: string, parameterType: string, content: seq<SqlElement>, m: Mapper)
    ensures ModifyFn(fx, id, parameterType, content, m).Success? <==>
      RenderElems(fx.includeEnd, 4, m.sqls, content, "cmd", 0).Success? && parameterType in m.typeMaps
  {
  }

  /** The body of a written statement function declares cmd, holds the
      building code, and ends with the tail; the counter ends at the number
      of if and trim elements. */
  lemma ModifyFnShape(fx: Fixes, id: string, parameterType: string, content: seq<SqlElement>, m: Mapper)
    requires ModifyFn(fx, id, parameterType, content, m).Success?
    ensures var c := ModifyFn(fx, id, parameterType, content, m).value.c;
      var body := RenderElems(fx.includeEnd, 4, m.sqls, content, "cmd", 0).value;
      c[..2 + |body.lines|] == [Signature(id, parameterType) + ") {\n", CmdDecl] + body.lines &&
      EndsWith(c, StmtTail(fx)) && body.next == Blocks(content)
  {
    RenderCounter(fx.includeEnd, 4, m.sqls, content, "cmd", 0);
    var body := RenderElems(fx.includeEnd, 4, m.sqls, content, "cmd", 0).value;
    var rm := m.typeMaps[parameterType];
    FrameParts([Signature(id, parameterType) + ") {\n", CmdDecl] + body.lines,
               BindDecls(|rm.results|) + PrepareDecls + PrepareLoopLines(rm.results), StmtTail(fx));
  }

  lemma FrameParts(front: seq<string>, mid: seq<string>, tail: seq<string>)
    ensures (front + (mid + tail))[..|front|] == front
    ensures EndsWith(front + (mid + tail), tail)
  {
    var c := front + (mid + tail);
    assert c[|c| - |tail|..] == tail;
  }

  /** write_select_fn: the output result map is looked up first. As written
      the prototype takes an `out` parameter the definition lacks, and the
      memset meant for bind_out clears bind. */
  function SelectFn(fx: Fixes, sel: YoSelect, m: Mapper): Result<Emitted>
  {
    if sel.resultMap !in m.resultMaps then Failure("no result map " + sel.resultMap)
    else
      var out := m.resultMaps[sel.resultMap];
      var sig := Signature(sel.id, sel.parameterType);
      var sigOut := sig + ", " + out.type_ + " out";
      match RenderElems(fx.includeEnd, 4, m.sqls, sel.content, "cmd", 0)
      case Failure(e) => Failure(e)
      case Success(body) =>
        if sel.parameterType !in m.typeMaps then Failure("no result map of type " + sel.parameterType)
        else
          var rm := m.typeMaps[sel.parameterType];
          Success(Emitted(
            [sigOut + ");\n"],
            [(if fx.selectSignature then sigOut else sig) + ") {\n", CmdDecl] + body.lines +
            BindDecls(|rm.results|) + BindOutDecls(fx, |out.results|) +
            PrepareDecls + PrepareLoopLines(rm.results) + StmtTail(fx)))
  }

  /** The bind array for the output fields. */
  function BindOutDecls(fx: Fixes, n: nat): seq<string>
  {
    [BindArray("bind_out", n), Memset(if fx.bindOutMemset then "bind_out" else "bind", n),
     "    int bind_out_num = 0;\n"]
  }

  /** As written the select prototype and definition disagree on the
      parameter list; corrected they have the same one. */
  lemma SelectSignatures(fx: Fixes, sel: YoSelect, m: Mapper)
    requires SelectFn(fx, sel, m).Success?
    ensures var e := SelectFn(fx, sel, m).value;
      var out := m.resultMaps[sel.resultMap];
      var sigOut := Signature(sel.id, sel.parameterType) + ", " + out.type_ + " out";
      e.h == [sigOut + ");\n"] &&
      (fx.selectSignature ==> e.c[0] == sigOut + ") {\n") &&
      (!fx.selectSignature ==> e.c[0] == Signature(sel.id, sel.parameterType) + ") {\n" &&
                               e.c[0] != sigOut + ") {\n")
  {
    var e := SelectFn(fx, sel, m).value;
    var out := m.resultMaps[sel.resultMap];
    var sig := Signature(sel.id, sel.parameterType);
    var sigOut := sig + ", " + out.type_ + " out";
    if !fx.selectSignature {
      assert |sig + ") {\n"| < |sigOut + ") {\n"|;
    }
  }

  /** As written the output bind array is never cleared and bind is cleared
      a second time; corrected each array is cleared once. */
  lemma BindOutNeverCleared(n: nat, k: nat)
    ensures Memset("bind_out", k) !in BindDecls(n) + BindOutDecls(AsWritten, k)
    ensures Memset("bind", k) in BindOutDecls(AsWritten, k)
    ensures Memset("bind_out", k) in BindOutDecls(Corrected, k)
    ensures Memset("bind", n) in BindDecls(n)
  {
    var target := "bind_out";
    var l := BindDecls(n) + BindOutDecls(AsWritten, k);
    forall i | 0 <= i < |l|
      ensures l[i] != Memset(target, k)
    {
      var ms := Memset(target, k);
      assert ms[4] == 'm' && ms[15] == '_';
      if i == 0 || i == 3 {
        assert l[i][4] == 'M';
      } else if i == 1 || i == 4 {
        assert l[i][15] == ',';
      } else {
        assert l[i][4] == 'i';
      }
    }
  }

  // ---------------------------------------------------------------------
  // The whole mapper (gen_mapper_src)

  /** The result maps (define, new, free) in the given order: header
      chunks and source chunks. */
  function ResultMapsOut(rms: seq<YoResultMap>): Result<Emitted>
  {
    if rms == [] then Success(Emitted([], []))
    else
      match ResultMapsOut(rms[..|rms| - 1])
      case Failure(e) => Failure(e)
      case Success(a) =>
        var rm := rms[|rms| - 1];
        match NewLines(rm)
        case Failure(e) => Failure(e)
        case Success(nl) =>
          Success(Emitted(a.h + StructLines(rm) + [NewDecl(rm), FreeDecl(rm)], a.c + nl + FreeLines(rm)))
  }

  function InsertsOut(fx: Fixes, ss: seq<YoInsert>, m: Mapper): Result<Emitted>
  {
    if ss == [] then Success(Emitted([], []))
    else
      match InsertsOut(fx, ss[..|ss| - 1], m)
      case Failure(e) => Failure(e)
      case Success(a) =>
        var s := ss[|ss| - 1];
        match ModifyFn(fx, s.id, s.parameterType, s.content, m)
        case Failure(e) => Failure(e)
        case Success(b) => Success(Emitted(a.h + b.h, a.c + b.c))
  }

  function UpdatesOut(fx: Fixes, ss: seq<YoUpdate>, m: Mapper): Result<Emitted>
  {
    if ss == [] then Success(Emitted([], []))
    else
      match UpdatesOut(fx, ss[..|ss| - 1], m)
      case Failure(e) => Failure(e)
      case Success(a) =>
        var s := ss[|ss| - 1];
        match ModifyFn(fx, s.id, s.parameterType, s.content, m)
        case Failure(e) => Failure(e)
        case Success(b) => Success(Emitted(a.h + b.h, a.c + b.c))
  }

  function SelectsOut(fx: Fixes, ss: seq<YoSelect>, m: Mapper): Result<Emitted>
  {
    if ss == [] then Success(Emitted([], []))
    else
      match SelectsOut(fx, ss[..|ss| - 1], m)
      case Failure(e) => Failure(e)
      case Success(a) =>
        match SelectFn(fx, ss[|ss| - 1], m)
        case Failure(e) => Failure(e)
        case Success(b) => Success(Emitted(a.h + b.h, a.c + b.c))
  }

  /** The order in which a table's entries are visited: each entry once.
      The order itself is not specified. */
  predicate Enumerates<V(==,!new)>(order: seq<V>, table: map<string, V>)
  {
    |order| == |table| &&
    (forall k :: 0 <= k < |order| ==> order[k] in table.Values) &&
    (forall v :: v in table.Values ==> v in order)
  }

  /** gen_mapper_src: guard start; includes; the result maps; the inserts;
      the updates; the selects; guard end. Deletes are not written. */
  function MapperSrc(fx: Fixes, m: Mapper, rms: seq<YoResultMap>, ins: seq<YoInsert>,
                     ups: seq<YoUpdate>, sels: seq<YoSelect>): Result<Emitted>
  {
    match ResultMapsOut(rms)
    case Failure(e) => Failure(e)
    case Success(r) =>
      match InsertsOut(fx, ins, m)
      case Failure(e) => Failure(e)
      case Success(i) =>
        match UpdatesOut(fx, ups, m)
        case Failure(e) => Failure(e)
        case Success(u) =>
          match SelectsOut(fx, sels, m)
          case Failure(e) => Failure(e)
          case Success(s) =>
            Success(Emitted(
              GuardStart(m.namespace) + r.h + i.h + u.h + s.h + GuardEnd(m.namespace),
              Includes("yb_" + m.namespace + ".h") + r.c + i.c + u.c + s.c))
  }

  /** The header opens with the guard and closes with it; the source opens
      with the includes; the deletes of the mapper change nothing. */
  lemma MapperSrcShape(fx: Fixes, m: Mapper, rms: seq<YoResultMap>, ins: seq<YoInsert>,
                       ups: seq<YoUpdate>, sels: seq<YoSelect>, deletes: map<string, YoDelete>)
    ensures MapperSrc(fx, m, rms, ins, ups, sels) == MapperSrc(fx, m.(deletes := deletes), rms, ins, ups, sels)
    ensures MapperSrc(fx, m, rms, ins, ups, sels).Success? ==>
      var e := MapperSrc(fx, m, rms, ins, ups, sels).value;
      StartsWith(e.h, GuardStart(m.namespace)) && EndsWith(e.h, GuardEnd(m.namespace)) &&
      StartsWith(e.c, Includes("yb_" + m.namespace + ".h"))
  {
    DeletesIgnored(fx, m, ins, ups, sels, deletes);
    if MapperSrc(fx, m, rms, ins, ups, sels).Success? {
      var r := ResultMapsOut(rms).value;
      var i := InsertsOut(fx, ins, m).value;
      var u := UpdatesOut(fx, ups, m).value;
      var s := SelectsOut(fx, sels, m).value;
      var gs := GuardStart(m.namespace);
      var inc := Includes("yb_" + m.namespace + ".h");
      StartsWithAppend(gs, r.h, i.h, u.h, s.h + GuardEnd(m.namespace));
      EndsWithAppend(gs + r.h + i.h + u.h + s.h, GuardEnd(m.namespace));
      StartsWithAppend(inc, r.c, i.c, u.c, s.c);
    }
  }

  lemma StartsWithAppend<T>(p: seq<T>, a: seq<T>, b: seq<T>, c: seq<T>, d: seq<T>)
    ensures StartsWith(p + a + b + c + d, p)
  {
    assert (p + a + b + c + d)[..|p|] == p;
  }

  lemma EndsWithAppend<T>(a: seq<T>, p: seq<T>)
    ensures EndsWith(a + p, p)
  {
    assert (a + p)[|a|..] == p;
  }

  lemma DeletesIgnored(fx: Fixes, m: Mapper, ins: seq<YoInsert>, ups: seq<YoUpdate>, sels: seq<YoSelect>,
                       deletes: map<string, YoDelete>)
    ensures InsertsOut(fx, ins, m) == InsertsOut(fx, ins, m.(deletes := deletes))
    ensures UpdatesOut(fx, ups, m) == UpdatesOut(fx, ups, m.(deletes := deletes))
    ensures SelectsOut(fx, sels, m) == SelectsOut(fx, sels, m.(deletes := deletes))
  {
    var m' := m.(deletes := deletes);
    assert m'.sqls == m.sqls && m'.typeMaps == m.typeMaps && m'.resultMaps == m.resultMaps;
    InsertsIgnoreDeletes(fx, ins, m, m');
    UpdatesIgnoreDeletes(fx, ups, m, m');
    SelectsIgnoreDeletes(fx, sels, m, m');
  }

  lemma {:induction false} InsertsIgnoreDeletes(fx: Fixes, ss: seq<YoInsert>, m: Mapper, m': Mapper)
    requires m'.sqls == m.sqls && m'.typeMaps == m.typeMaps
    ensures InsertsOut(fx, ss, m) == InsertsOut(fx, ss, m')
    decreases |ss|
  {
    if ss != [] {
      InsertsIgnoreDeletes(fx, ss[..|ss| - 1], m, m');
      var s := ss[|ss| - 1];
      ModifyFnReads(fx, s.id, s.parameterType, s.content, m, m');
    }
  }

  lemma {:induction false} UpdatesIgnoreDeletes(fx: Fixes, ss: seq<YoUpdate>, m: Mapper, m': Mapper)
    requires m'.sqls == m.sqls && m'.typeMaps == m.typeMaps
    ensures UpdatesOut(fx, ss, m) == UpdatesOut(fx, ss, m')
    decreases |ss|
  {
    if ss != [] {
      UpdatesIgnoreDeletes(fx, ss[..|ss| - 1], m, m');
      var s := ss[|ss| - 1];
      ModifyFnReads(fx, s.id, s.parameterType, s.content, m, m');
    }
  }

  lemma {:induction false} SelectsIgnoreDeletes(fx: Fixes, ss: seq<YoSelect>, m: Mapper, m': Mapper)
    requires m'.sqls == m.sqls && m'.typeMaps == m.typeMaps && m'.resultMaps == m.resultMaps
    ensures SelectsOut(fx, ss, m) == SelectsOut(fx, ss, m')
    decreases |ss|
  {
    if ss != [] {
      SelectsIgnoreDeletes(fx, ss[..|ss| - 1], m, m');
      SelectFnReads(fx, ss[|ss| - 1], m, m');
    }
  }

  /** A statement function depends on the fragments and the type table only. */
  lemma ModifyFnReads(fx: Fixes, id: string, parameterType: string, content: seq<SqlElement>, m: Mapper, m': Mapper)
    requires m'.sqls == m.sqls && m'.typeMaps == m.typeMaps
    ensures ModifyFn(fx, id, parameterType, content, m) == ModifyFn(fx, id, parameterType, content, m')
  {
  }

  /** A select function depends on the fragments and both result-map tables only. */
  lemma SelectFnReads(fx: Fixes, sel: YoSelect, m: Mapper, m': Mapper)
    requires m'.sqls == m.sqls && m'.typeMaps == m.typeMaps && m'.resultMaps == m.resultMaps
    ensures SelectFn(fx, sel, m) == SelectFn(fx, sel, m')
  {
  }

  // ---------------------------------------------------------------------
  // The writers

  method WriteGuardStart(h: OutFile, m: Mapper)
    modifies h
    ensures h.chunks == old(h.chunks) + GuardStart(m.namespace)
  {
    var ppGuard := "YB_" + Upper(m.namespace) + "_H__";
    h.Write("#ifndef ");
    h.Write(ppGuard);
    h.Write("\n");
    h.Write("#define ");
    h.Write(ppGuard);
    h.Write("\n\n");
  }

  method WriteGuardEnd(h: OutFile, m: Mapper)
    modifies h
    ensures h.chunks == old(h.chunks) + GuardEnd(m.namespace)
  {
    var ppGuard := "YB_" + Upper(m.namespace) + "_H__";
    h.Write("#endif // ");
    h.Write(ppGuard);
    h.Write("\n\n");
  }

  method WriteIncludes(c: OutFile, filenameH: string)
    modifies c
    ensures c.chunks == old(c.chunks) + Includes(filenameH)
  {
    c.Write("#include \"");
    c.Write(filenameH);
    c.Write("\"\n\n");
    c.Write("#include \"yb_common.h\"\n\n");
  }

  method WriteResultMapDefine(h: OutFile, rm: YoResultMap)
    modifies h
    ensures h.chunks == old(h.chunks) + StructLines(rm)
  {
    h.Write("struct " + rm.type_ + "_s {\n");
    ghost var h1 := h.chunks;
    for k := 0 to |rm.results|
      invariant h.chunks == h1 + MemberLines(rm.results[..k])
    {
      assert rm.results[..k + 1][..k] == rm.results[..k];
      var result := rm.results[k];
      h.Write("    " + result.yoType + " " + result.property + ";\n");
    }
    assert rm.results[..|rm.results|] == rm.results;
    h.Write("};\n");
    h.Write("typedef struct " + rm.type_ + "_s* " + rm.type_ + ";\n");
  }

  method WriteResultMapNew(h: OutFile, c: OutFile, rm: YoResultMap) returns (r: Outcome)
    requires h != c
    modifies h, c
    ensures h.chunks == old(h.chunks) + [NewDecl(rm)]
    ensures r.Pass? <==> NewLines(rm).Success?
    ensures r.Pass? ==> c.chunks == old(c.chunks) + NewLines(rm).value
    ensures r.Fail? ==>
              exists k :: StoppedAt(rm.results, k) &&
                          c.chunks == old(c.chunks) + NewHead(rm) + InitLines(rm.results[..k]).value
  {
    h.Write(NewDecl(rm));
    var head := NewHead(rm);
    c.Write(head[0]);
    c.Write(head[1]);
    ghost var c1 := c.chunks;
    assert c1 == old(c.chunks) + NewHead(rm);
    for k := 0 to |rm.results|
      invariant h.chunks == old(h.chunks) + [NewDecl(rm)]
      invariant InitLines(rm.results[..k]).Success?
      invariant c.chunks == c1 + InitLines(rm.results[..k]).value
    {
      assert rm.results[..k + 1][..k] == rm.results[..k];
      var result := rm.results[k];
      var sentinel;
      if result.yoType == "int64_t" {
        sentinel := "YB_INT_NULL";
      } else if result.yoType == "double" {
        sentinel := "YB_FLOAT_NULL";
      } else if result.yoType == "yb_string_t" {
        sentinel := "YB_STRING_NULL";
      } else {
        InitLinesFailurePropagates(rm.results, k + 1);
        assert StoppedAt(rm.results, k);
        return Fail("unsupported type: " + result.yoType);
      }
      c.Write(InitLine(result, sentinel));
    }
    assert rm.results[..|rm.results|] == rm.results;
    c.Write(NewTail);
    r := Pass;
  }

  /** The constructor's assignments stop at `k`: every type before it is
      supported and the type at `k` is not. What the lines before `k` wrote
      stays in the source file. */
  predicate StoppedAt(rs: seq<YoResult>, k: int)
  {
    0 <= k < |rs| && InitLines(rs[..k]).Success? && Sentinel(rs[k].yoType).None?
  }

  lemma {:induction false} InitLinesFailurePropagates(rs: seq<YoResult>, i: nat)
    requires i <= |rs| && InitLines(rs[..i]).Failure?
    ensures InitLines(rs).Failure?
    decreases |rs| - i
  {
    if i < |rs| {
      assert rs[..i + 1][..i] == rs[..i];
      InitLinesFailurePropagates(rs, i + 1);
    } else {
      assert rs[..i] == rs;
    }
  }

  method WriteResultMapFree(h: OutFile, c: OutFile, rm: YoResultMap)
    requires h != c
    modifies h, c
    ensures h.chunks == old(h.chunks) + [FreeDecl(rm)]
    ensures c.chunks == old(c.chunks) + FreeLines(rm)
  {
    h.Write(FreeDecl(rm));
    c.Write("void " + rm.type_ + "_free(" + rm.type_ + " n) {\n");
    ghost var c1 := c.chunks;
    for k := 0 to |rm.results|
      invariant h.chunks == old(h.chunks) + [FreeDecl(rm)]
      invariant c.chunks == c1 + FreeFieldLines(rm.results[..k])
    {
      assert rm.results[..k + 1][..k] == rm.results[..k];
      if rm.results[k].yoType == "yb_string_t" {
        c.Write(FreeStmt(rm.results[k].property));
      }
    }
    assert rm.results[..|rm.results|] == rm.results;
    c.Write(FreeTail);
  }

  /** write_result_map: define, new, free. */
  method WriteResultMap(h: OutFile, c: OutFile, rm: YoResultMap) returns (r: Outcome)
    requires h != c
    modifies h, c
    ensures r.Pass? <==> NewLines(rm).Success?
    ensures r.Pass? ==>
      h.chunks == old(h.chunks) + StructLines(rm) + [NewDecl(rm), FreeDecl(rm)] &&
      c.chunks == old(c.chunks) + NewLines(rm).value + FreeLines(rm)
    ensures r.Fail? ==> h.chunks == old(h.chunks) + StructLines(rm) + [NewDecl(rm)]
  {
    WriteResultMapDefine(h, rm);
    r := WriteResultMapNew(h, c, rm);
    if r.Fail? {
      return;
    }
    WriteResultMapFree(h, c, rm);
  }

  lemma {:induction false} RenderFailurePropagates(fixInclude: bool, indent: nat, sqls: map<string, YoSql>,
                                                   elems: seq<SqlElement>, val: string, inc: int, i: nat)
    requires i <= |elems| && RenderElems(fixInclude, indent, sqls, elems[..i], val, inc).Failure?
    ensures RenderElems(fixInclude, indent, sqls, elems, val, inc).Failure?
    decreases |elems| - i
  {
    if i < |elems| {
      assert elems[..i + 1][..i] == elems[..i];
      RenderFailurePropagates(fixInclude, indent, sqls, elems, val, inc, i + 1);
    } else {
      assert elems[..i] == elems;
    }
  }

  /** write_sql_gen_stmt: the elements in order, threading the counter. */
  method WriteSqlGenStmt(c: OutFile, indent: nat, m: Mapper, elems: seq<SqlElement>, val: string, inc: int)
    returns (r: Outcome, next: int)
    modifies c
    ensures r.Pass? <==> RenderElems(false, indent, m.sqls, elems, val, inc).Success?
    ensures r.Pass? ==>
      c.chunks == old(c.chunks) + RenderElems(false, indent, m.sqls, elems, val, inc).value.lines &&
      next == RenderElems(false, indent, m.sqls, elems, val, inc).value.next
    decreases elems, 0
  {
    ghost var c0 := c.chunks;
    next := inc;
    for i := 0 to |elems|
      invariant RenderElems(false, indent, m.sqls, elems[..i], val, inc).Success?
      invariant c.chunks == c0 + RenderElems(false, indent, m.sqls, elems[..i], val, inc).value.lines
      invariant next == RenderElems(false, indent, m.sqls, elems[..i], val, inc).value.next
    {
      ghost var c1 := c.chunks;
      var rc;
      rc, next := WriteSqlElem(c, indent, m, elems[i], val, next);
      RenderElemsSnoc(false, indent, m.sqls, elems, val, inc, i);
      if rc.Fail? {
        RenderFailurePropagates(false, indent, m.sqls, elems, val, inc, i + 1);
        return rc, next;
      }
      ghost var a := RenderElems(false, indent, m.sqls, elems[..i], val, inc).value;
      ghost var b := RenderElem(false, indent, m.sqls, elems[i], val, a.next).value;
      AppendAssoc(c0, a.lines, b.lines);
    }
    assert elems[..|elems|] == elems;
    r := Pass;
  }

  lemma RenderElemsSnoc(fixInclude: bool, indent: nat, sqls: map<string, YoSql>, elems: seq<SqlElement>,
                        val: string, inc: int, i: nat)
    requires i < |elems| && RenderElems(fixInclude, indent, sqls, elems[..i], val, inc).Success?
    ensures var a := RenderElems(fixInclude, indent, sqls, elems[..i], val, inc).value;
      var b := RenderElem(fixInclude, indent, sqls, elems[i], val, a.next);
      RenderElems(fixInclude, indent, sqls, elems[..i + 1], val, inc) ==
        if b.Failure? then Failure(b.error) else Success(Rendered(a.lines + b.value.lines, b.value.next))
  {
    assert elems[..i + 1][..i] == elems[..i];
  }

  /** The body of write_sql_gen_stmt's loop: one element. */
  method WriteSqlElem(c: OutFile, indent: nat, m: Mapper, e: SqlElement, val: string, inc: int)
    returns (r: Outcome, next: int)
    modifies c
    ensures r.Pass? <==> RenderElem(false, indent, m.sqls, e, val, inc).Success?
    ensures r.Pass? ==>
      c.chunks == old(c.chunks) + RenderElem(false, indent, m.sqls, e, val, inc).value.lines &&
      next == RenderElem(false, indent, m.sqls, e, val, inc).value.next
    decreases e, 1
  {
    next := inc;
    match e {
      case YoIf(_, _) =>
        r, next := WriteAppendIfStmt(c, indent, m, e, val, inc);
      case YoInclude(refid) =>
        if refid !in m.sqls {
          return Fail("include sql not found: " + refid), next;
        }
        var incSql := m.sqls[refid];
        c.Write(IncludeLine(false, indent, val, incSql.text));
        r := Pass;
      case YoText(tex) =>
        c.Write(TextLine(indent, val, tex));
        r := Pass;
      case YoTrim(_, _, _, _, _) =>
        r, next := WriteTrimStmt(c, indent, m, e, val, inc);
    }
  }

  /** write_append_if_stmt. */
  method WriteAppendIfStmt(c: OutFile, indent: nat, m: Mapper, e: SqlElement, val: string, inc: int)
    returns (r: Outcome, next: int)
    requires e.YoIf?
    modifies c
    ensures r.Pass? <==> RenderElem(false, indent, m.sqls, e, val, inc).Success?
    ensures r.Pass? ==>
      c.chunks == old(c.chunks) + RenderElem(false, indent, m.sqls, e, val, inc).value.lines &&
      next == RenderElem(false, indent, m.sqls, e, val, inc).value.next
    decreases e, 0
  {
    ghost var c0 := c.chunks;
    c.Write(IfOpen(indent, e.test));
    var tmpVal := TmpName(inc);
    next := inc + 1;
    c.Write(TmpDecl(indent + 4, tmpVal));
    r, next := WriteSqlGenStmt(c, indent + 4, m, e.content, tmpVal, next);
    if r.Fail? {
      return;
    }
    ghost var body := RenderElems(false, indent + 4, m.sqls, e.content, tmpVal, inc + 1).value;
    c.Write(AppendTmp(indent + 4, val, tmpVal));
    c.Write(FreeTmp(indent + 4, tmpVal));
    c.Write(CloseBrace(indent));
    IfRendered(false, indent, m.sqls, e, val, inc, c0, body);
  }

  /** write_trim_stmt. */
  method WriteTrimStmt(c: OutFile, indent: nat, m: Mapper, e: SqlElement, val: string, inc: int)
    returns (r: Outcome, next: int)
    requires e.YoTrim?
    modifies c
    ensures r.Pass? <==> RenderElem(false, indent, m.sqls, e, val, inc).Success?
    ensures r.Pass? ==>
      c.chunks == old(c.chunks) + RenderElem(false, indent, m.sqls, e, val, inc).value.lines &&
      next == RenderElem(false, indent, m.sqls, e, val, inc).value.next
    decreases e, 0
  {
    ghost var c0 := c.chunks;
    var tmpVal := TmpName(inc);
    next := inc + 1;
    c.Write(TmpDecl(indent, tmpVal));
    r, next := WriteSqlGenStmt(c, indent, m, e.content, tmpVal, next);
    if r.Fail? {
      return;
    }
    ghost var body := RenderElems(false, indent, m.sqls, e.content, tmpVal, inc + 1).value;
    c.Write(TrimLine(indent, tmpVal, e.prefix, e.suffix, e.prefixOverrides, e.suffixOverrides, val));
    c.Write(FreeTmp(indent, tmpVal));
    TrimRendered(false, indent, m.sqls, e, val, inc, c0, body);
  }

  /** An if element whose content rendered to `body`, written after `c0`. */
  lemma IfRendered(fixInclude: bool, indent: nat, sqls: map<string, YoSql>, e: SqlElement, val: string, inc: int,
                   c0: seq<string>, body: Rendered)
    requires e.YoIf? && RenderElems(fixInclude, indent + 4, sqls, e.content, TmpName(inc), inc + 1) == Success(body)
    ensures RenderElem(fixInclude, indent, sqls, e, val, inc).Success?
    ensures var tmp := TmpName(inc);
      c0 + [IfOpen(indent, e.test)] + [TmpDecl(indent + 4, tmp)] + body.lines + [AppendTmp(indent + 4, val, tmp)]
        + [FreeTmp(indent + 4, tmp)] + [CloseBrace(indent)]
      == c0 + RenderElem(fixInclude, indent, sqls, e, val, inc).value.lines
    ensures RenderElem(fixInclude, indent, sqls, e, val, inc).value.next == body.next
  {
    var tmp := TmpName(inc);
    var front := [IfOpen(indent, e.test), TmpDecl(indent + 4, tmp)];
    var back := [AppendTmp(indent + 4, val, tmp), FreeTmp(indent + 4, tmp), CloseBrace(indent)];
    assert c0 + [IfOpen(indent, e.test)] + [TmpDecl(indent + 4, tmp)] == c0 + front;
    assert c0 + front + body.lines + [AppendTmp(indent + 4, val, tmp)] + [FreeTmp(indent + 4, tmp)] + [CloseBrace(indent)]
      == c0 + front + body.lines + back;
    AppendAssoc(c0 + front, body.lines, back);
    AppendAssoc(c0, front, body.lines + back);
    AppendAssoc(front, body.lines, back);
  }

  /** A trim element whose content rendered to `body`, written after `c0`. */
  lemma TrimRendered(fixInclude: bool, indent: nat, sqls: map<string, YoSql>, e: SqlElement, val: string, inc: int,
                     c0: seq<string>, body: Rendered)
    requires e.YoTrim? && RenderElems(fixInclude, indent, sqls, e.content, TmpName(inc), inc + 1) == Success(body)
    ensures RenderElem(fixInclude, indent, sqls, e, val, inc).Success?
    ensures var tmp := TmpName(inc);
      c0 + [TmpDecl(indent, tmp)] + body.lines
        + [TrimLine(indent, tmp, e.prefix, e.suffix, e.prefixOverrides, e.suffixOverrides, val)] + [FreeTmp(indent, tmp)]
      == c0 + RenderElem(fixInclude, indent, sqls, e, val, inc).value.lines
    ensures RenderElem(fixInclude, indent, sqls, e, val, inc).value.next == body.next
  {
    var tmp := TmpName(inc);
    var back := [TrimLine(indent, tmp, e.prefix, e.suffix, e.prefixOverrides, e.suffixOverrides, val), FreeTmp(indent, tmp)];
    assert c0 + [TmpDecl(indent, tmp)] + body.lines + [back[0]] + [back[1]] == c0 + [TmpDecl(indent, tmp)] + body.lines + back;
    AppendAssoc(c0 + [TmpDecl(indent, tmp)], body.lines, back);
    AppendAssoc(c0, [TmpDecl(indent, tmp)], body.lines + back);
    AppendAssoc([TmpDecl(indent, tmp)], body.lines, back);
  }

  /** Appends the chunks one by one. */
  method WriteAll(c: OutFile, lines: seq<string>)
    modifies c
    ensures c.chunks == old(c.chunks) + lines
  {
    for k := 0 to |lines|
      invariant c.chunks == old(c.chunks) + lines[..k]
    {
      assert lines[..k + 1] == lines[..k] + [lines[k]];
      c.Write(lines[k]);
    }
    assert lines[..|lines|] == lines;
  }

  /** write_cmd_to_prepare_sql. */
  method WriteCmdToPrepareSql(c: OutFile, rm: YoResultMap)
    modifies c
    ensures c.chunks == old(c.chunks) + PrepareLoopLines(rm.results)
  {
    ghost var c0 := c.chunks;
    WriteAll(c, LoopHead);
    ghost var c1 := c.chunks;
    for k := 0 to |rm.results|
      invariant c.chunks == c1 + FieldsChunks(rm.results[..k])
    {
      ghost var c2 := c.chunks;
      WriteAll(c, FieldChunks(rm.results[k]));
      FieldsChunksSnoc(rm.results, k);
      AppendAssoc(c1, FieldsChunks(rm.results[..k]), FieldChunks(rm.results[k]));
    }
    assert rm.results[..|rm.results|] == rm.results;
    WriteAll(c, LoopTail);
    AppendAssoc(c0, LoopHead, FieldsChunks(rm.results));
    AppendAssoc(c0, LoopHead + FieldsChunks(rm.results), LoopTail);
  }

  lemma FieldsChunksSnoc(rs: seq<YoResult>, k: nat)
    requires k < |rs|
    ensures FieldsChunks(rs[..k + 1]) == FieldsChunks(rs[..k]) + FieldChunks(rs[k])
  {
    assert rs[..k + 1][..k] == rs[..k];
  }

  /** write_insert_fn and write_update_fn. */
  method WriteModifyFn(h: OutFile, c: OutFile, id: string, parameterType: string, content: seq<SqlElement>, m: Mapper)
    returns (r: Outcome)
    requires h != c
    modifies h, c
    ensures r.Pass? <==> ModifyFn(AsWritten, id, parameterType, content, m).Success?
    ensures r.Pass? ==>
      h.chunks == old(h.chunks) + ModifyFn(AsWritten, id, parameterType, content, m).value.h &&
      c.chunks == old(c.chunks) + ModifyFn(AsWritten, id, parameterType, content, m).value.c
  {
    h.Write(Signature(id, parameterType) + ");\n");
    ghost var c0 := c.chunks;
    c.Write(Signature(id, parameterType) + ") {\n");
    c.Write(CmdDecl);
    var next;
    r, next := WriteSqlGenStmt(c, 4, m, content, "cmd", 0);
    if r.Fail? {
      return;
    }
    if parameterType !in m.typeMaps {
      return Fail("no result map of type " + parameterType);
    }
    var resultMap := m.typeMaps[parameterType];
    WriteAll(c, BindDecls(|resultMap.results|) + PrepareDecls);
    WriteCmdToPrepareSql(c, resultMap);
    WriteAll(c, StmtTail(AsWritten));
    ModifyFrame(c0, Signature(id, parameterType) + ") {\n", CmdDecl,
                RenderElems(false, 4, m.sqls, content, "cmd", 0).value.lines,
                BindDecls(|resultMap.results|), PrepareDecls, PrepareLoopLines(resultMap.results), StmtTail(AsWritten));
  }

  /** write_select_fn. */
  method WriteSelectFn(h: OutFile, c: OutFile, sel: YoSelect, m: Mapper) returns (r: Outcome)
    requires h != c
    modifies h, c
    ensures r.Pass? <==> SelectFn(AsWritten, sel, m).Success?
    ensures r.Pass? ==>
      h.chunks == old(h.chunks) + SelectFn(AsWritten, sel, m).value.h &&
      c.chunks == old(c.chunks) + SelectFn(AsWritten, sel, m).value.c
  {
    if sel.resultMap !in m.resultMaps {
      return Fail("no result map " + sel.resultMap);
    }
    var resultOutMap := m.resultMaps[sel.resultMap];
    var sig := Signature(sel.id, sel.parameterType);
    h.Write(sig + ", " + resultOutMap.type_ + " out" + ");\n");
    ghost var c0 := c.chunks;
    c.Write(sig + ") {\n");
    c.Write(CmdDecl);
    var next;
    r, next := WriteSqlGenStmt(c, 4, m, sel.content, "cmd", 0);
    if r.Fail? {
      return;
    }
    if sel.parameterType !in m.typeMaps {
      return Fail("no result map of type " + sel.parameterType);
    }
    var resultMap := m.typeMaps[sel.parameterType];
    WriteSelectRest(c, resultMap, |resultOutMap.results|);
    SelectFnAsWritten(sel, m);
    SelectFrame(c0, sig + ") {\n", CmdDecl, RenderElems(false, 4, m.sqls, sel.content, "cmd", 0).value.lines,
                BindDecls(|resultMap.results|), BindOutDecls(AsWritten, |resultOutMap.results|), PrepareDecls,
                PrepareLoopLines(resultMap.results), StmtTail(AsWritten));
  }

  /** SelectFn as written on a select whose maps and body resolve. */
  lemma SelectFnAsWritten(sel: YoSelect, m: Mapper)
    requires sel.resultMap in m.resultMaps && sel.parameterType in m.typeMaps
    requires RenderElems(false, 4, m.sqls, sel.content, "cmd", 0).Success?
    ensures SelectFn(AsWritten, sel, m) == Success(Emitted(
      [Signature(sel.id, sel.parameterType) + ", " + m.resultMaps[sel.resultMap].type_ + " out" + ");\n"],
      [Signature(sel.id, sel.parameterType) + ") {\n", CmdDecl] + RenderElems(false, 4, m.sqls, sel.content, "cmd", 0).value.lines +
      BindDecls(|m.typeMaps[sel.parameterType].results|) + BindOutDecls(AsWritten, |m.resultMaps[sel.resultMap].results|) +
      PrepareDecls + PrepareLoopLines(m.typeMaps[sel.parameterType].results) + StmtTail(AsWritten)))
  {
  }

  /** What write_select_fn appends after the statement body: the bind
      arrays, the prepare declarations, the placeholder loop and the tail. */
  method WriteSelectRest(c: OutFile, resultMap: YoResultMap, nOut: nat)
    modifies c
    ensures c.chunks == old(c.chunks) + (BindDecls(|resultMap.results|) + BindOutDecls(AsWritten, nOut) + PrepareDecls)
      + PrepareLoopLines(resultMap.results) + StmtTail(AsWritten)
  {
    WriteAll(c, BindDecls(|resultMap.results|) + BindOutDecls(AsWritten, nOut) + PrepareDecls);
    WriteCmdToPrepareSql(c, resultMap);
    WriteAll(c, StmtTail(AsWritten));
  }

  /** The order in which write_insert_fn and write_update_fn append their
      parts, regrouped as ModifyFn groups them. */
  lemma ModifyFrame(o: seq<string>, s1: string, s2: string, body: seq<string>, bd: seq<string>, pd: seq<string>,
                    pll: seq<string>, st: seq<string>)
    ensures (((((o + [s1]) + [s2]) + body) + (bd + pd)) + pll) + st ==
      o + ([s1, s2] + body + (bd + pd + pll + st))
  {
    assert [s1] + [s2] == [s1, s2];
  }

  /** The same for write_select_fn. */
  lemma SelectFrame(o: seq<string>, s1: string, s2: string, body: seq<string>, bd: seq<string>, bod: seq<string>,
                    pd: seq<string>, pll: seq<string>, st: seq<string>)
    ensures (((((o + [s1]) + [s2]) + body) + (bd + bod + pd)) + pll) + st ==
      o + ([s1, s2] + body + bd + bod + pd + pll + st)
  {
    assert [s1] + [s2] == [s1, s2];
  }

  /** The loop of gen_mapper_src over the ResultMaps. */
  method WriteResultMaps(h: OutFile, c: OutFile, rms: seq<YoResultMap>) returns (r: Outcome)
    requires h != c
    modifies h, c
    ensures r.Pass? <==> ResultMapsOut(rms).Success?
    ensures r.Pass? ==>
      h.chunks == old(h.chunks) + ResultMapsOut(rms).value.h &&
      c.chunks == old(c.chunks) + ResultMapsOut(rms).value.c
  {
    ghost var h0, c0 := h.chunks, c.chunks;
    r := Pass;
    for i := 0 to |rms|
      invariant r.Pass? && ResultMapsOut(rms[..i]).Success?
      invariant h.chunks == h0 + ResultMapsOut(rms[..i]).value.h
      invariant c.chunks == c0 + ResultMapsOut(rms[..i]).value.c
    {
      ghost var hb, cb := h.chunks, c.chunks;
      r := WriteResultMap(h, c, rms[i]);
      if r.Fail? {
        ResultMapsSnoc(rms, i);
        ResultMapsFailurePropagates(rms, i + 1);
        return;
      }
      ResultMapsStep(rms, i, h0, c0, hb, cb, h.chunks, c.chunks);
    }
    assert rms[..|rms|] == rms;
  }

  /** One ResultMap written after the first `i`: the output so far is that
      of the first `i + 1`. */
  lemma ResultMapsStep(rms: seq<YoResultMap>, i: nat, h0: seq<string>, c0: seq<string>,
                       hb: seq<string>, cb: seq<string>, h1: seq<string>, c1: seq<string>)
    requires i < |rms| && ResultMapsOut(rms[..i]).Success? && NewLines(rms[i]).Success?
    requires hb == h0 + ResultMapsOut(rms[..i]).value.h && cb == c0 + ResultMapsOut(rms[..i]).value.c
    requires h1 == hb + StructLines(rms[i]) + [NewDecl(rms[i]), FreeDecl(rms[i])]
    requires c1 == cb + NewLines(rms[i]).value + FreeLines(rms[i])
    ensures ResultMapsOut(rms[..i + 1]).Success?
    ensures h1 == h0 + ResultMapsOut(rms[..i + 1]).value.h && c1 == c0 + ResultMapsOut(rms[..i + 1]).value.c
  {
    var a := ResultMapsOut(rms[..i]).value;
    var b := NewLines(rms[i]).value;
    var sl, nf := StructLines(rms[i]), [NewDecl(rms[i]), FreeDecl(rms[i])];
    ResultMapsSnoc(rms, i);
    AppendAssoc(h0, a.h, sl);
    AppendAssoc(h0, a.h + sl, nf);
    AppendAssoc(c0, a.c, b);
    AppendAssoc(c0, a.c + b, FreeLines(rms[i]));
  }

  lemma ResultMapsSnoc(rms: seq<YoResultMap>, i: nat)
    requires i < |rms| && ResultMapsOut(rms[..i]).Success?
    ensures var a := ResultMapsOut(rms[..i]).value;
      var b := NewLines(rms[i]);
      ResultMapsOut(rms[..i + 1]) ==
        if b.Failure? then Failure(b.error)
        else Success(Emitted(a.h + StructLines(rms[i]) + [NewDecl(rms[i]), FreeDecl(rms[i])], a.c + b.value + FreeLines(rms[i])))
  {
    assert rms[..i + 1][..i] == rms[..i];
  }

  /** The loop of gen_mapper_src over the Inserts. */
  method WriteInserts(h: OutFile, c: OutFile, ins: seq<YoInsert>, m: Mapper) returns (r: Outcome)
    requires h != c
    modifies h, c
    ensures r.Pass? <==> InsertsOut(AsWritten, ins, m).Success?
    ensures r.Pass? ==>
      h.chunks == old(h.chunks) + InsertsOut(AsWritten, ins, m).value.h &&
      c.chunks == old(c.chunks) + InsertsOut(AsWritten, ins, m).value.c
  {
    ghost var h0, c0 := h.chunks, c.chunks;
    r := Pass;
    for i := 0 to |ins|
      invariant r.Pass? && InsertsOut(AsWritten, ins[..i], m).Success?
      invariant h.chunks == h0 + InsertsOut(AsWritten, ins[..i], m).value.h
      invariant c.chunks == c0 + InsertsOut(AsWritten, ins[..i], m).value.c
    {
      ghost var a := InsertsOut(AsWritten, ins[..i], m).value;
      r := WriteModifyFn(h, c, ins[i].id, ins[i].parameterType, ins[i].content, m);
      InsertsSnoc(ins, m, i);
      if r.Fail? {
        InsertsFailurePropagates(ins, m, i + 1);
        return;
      }
      ghost var b := ModifyFn(AsWritten, ins[i].id, ins[i].parameterType, ins[i].content, m).value;
      AppendAssoc(h0, a.h, b.h);
      AppendAssoc(c0, a.c, b.c);
    }
    assert ins[..|ins|] == ins;
  }

  lemma InsertsSnoc(ins: seq<YoInsert>, m: Mapper, i: nat)
    requires i < |ins| && InsertsOut(AsWritten, ins[..i], m).Success?
    ensures var a := InsertsOut(AsWritten, ins[..i], m).value;
      var b := ModifyFn(AsWritten, ins[i].id, ins[i].parameterType, ins[i].content, m);
      InsertsOut(AsWritten, ins[..i + 1], m) ==
        if b.Failure? then Failure(b.error) else Success(Emitted(a.h + b.value.h, a.c + b.value.c))
  {
    assert ins[..i + 1][..i] == ins[..i];
  }

  /** The loop of gen_mapper_src over the Updates. */
  method WriteUpdates(h: OutFile, c: OutFile, ups: seq<YoUpdate>, m: Mapper) returns (r: Outcome)
    requires h != c
    modifies h, c
    ensures r.Pass? <==> UpdatesOut(AsWritten, ups, m).Success?
    ensures r.Pass? ==>
      h.chunks == old(h.chunks) + UpdatesOut(AsWritten, ups, m).value.h &&
      c.chunks == old(c.chunks) + UpdatesOut(AsWritten, ups, m).value.c
  {
    ghost var h0, c0 := h.chunks, c.chunks;
    r := Pass;
    for i := 0 to |ups|
      invariant r.Pass? && UpdatesOut(AsWritten, ups[..i], m).Success?
      invariant h.chunks == h0 + UpdatesOut(AsWritten, ups[..i], m).value.h
      invariant c.chunks == c0 + UpdatesOut(AsWritten, ups[..i], m).value.c
    {
      ghost var a := UpdatesOut(AsWritten, ups[..i], m).value;
      r := WriteModifyFn(h, c, ups[i].id, ups[i].parameterType, ups[i].content, m);
      UpdatesSnoc(ups, m, i);
      if r.Fail? {
        UpdatesFailurePropagates(ups, m, i + 1);
        return;
      }
      ghost var b := ModifyFn(AsWritten, ups[i].id, ups[i].parameterType, ups[i].content, m).value;
      AppendAssoc(h0, a.h, b.h);
      AppendAssoc(c0, a.c, b.c);
    }
    assert ups[..|ups|] == ups;
  }

  lemma UpdatesSnoc(ups: seq<YoUpdate>, m: Mapper, i: nat)
    requires i < |ups| && UpdatesOut(AsWritten, ups[..i], m).Success?
    ensures var a := UpdatesOut(AsWritten, ups[..i], m).value;
      var b := ModifyFn(AsWritten, ups[i].id, ups[i].parameterType, ups[i].content, m);
      UpdatesOut(AsWritten, ups[..i + 1], m) ==
        if b.Failure? then Failure(b.error) else Success(Emitted(a.h + b.value.h, a.c + b.value.c))
  {
    assert ups[..i + 1][..i] == ups[..i];
  }

  /** The loop of gen_mapper_src over the Selects. */
  method WriteSelects(h: OutFile, c: OutFile, sels: seq<YoSelect>, m: Mapper) returns (r: Outcome)
    requires h != c
    modifies h, c
    ensures r.Pass? <==> SelectsOut(AsWritten, sels, m).Success?
    ensures r.Pass? ==>
      h.chunks == old(h.chunks) + SelectsOut(AsWritten, sels, m).value.h &&
      c.chunks == old(c.chunks) + SelectsOut(AsWritten, sels, m).value.c
  {
    ghost var h0, c0 := h.chunks, c.chunks;
    r := Pass;
    for i := 0 to |sels|
      invariant r.Pass? && SelectsOut(AsWritten, sels[..i], m).Success?
      invariant h.chunks == h0 + SelectsOut(AsWritten, sels[..i], m).value.h
      invariant c.chunks == c0 + SelectsOut(AsWritten, sels[..i], m).value.c
    {
      ghost var a := SelectsOut(AsWritten, sels[..i], m).value;
      r := WriteSelectFn(h, c, sels[i], m);
      SelectsSnoc(sels, m, i);
      if r.Fail? {
        SelectsFailurePropagates(sels, m, i + 1);
        return;
      }
      ghost var b := SelectFn(AsWritten, sels[i], m).value;
      AppendAssoc(h0, a.h, b.h);
      AppendAssoc(c0, a.c, b.c);
    }
    assert sels[..|sels|] == sels;
  }

  lemma SelectsSnoc(sels: seq<YoSelect>, m: Mapper, i: nat)
    requires i < |sels| && SelectsOut(AsWritten, sels[..i], m).Success?
    ensures var a := SelectsOut(AsWritten, sels[..i], m).value;
      var b := SelectFn(AsWritten, sels[i], m);
      SelectsOut(AsWritten, sels[..i + 1], m) ==
        if b.Failure? then Failure(b.error) else Success(Emitted(a.h + b.value.h, a.c + b.value.c))
  {
    assert sels[..i + 1][..i] == sels[..i];
  }

  /** gen_mapper_src: the two files of one mapper, the tables visited in
      the given orders. */
  method GenMapperSrc(m: Mapper, rms: seq<YoResultMap>, ins: seq<YoInsert>, ups: seq<YoUpdate>,
                      sels: seq<YoSelect>) returns (h: OutFile, c: OutFile, r: Outcome)
    requires Enumerates(rms, m.resultMaps) && Enumerates(ins, m.inserts)
    requires Enumerates(ups, m.updates) && Enumerates(sels, m.selects)
    ensures fresh(h) && fresh(c) && h != c
    ensures r.Pass? <==> MapperSrc(AsWritten, m, rms, ins, ups, sels).Success?
    ensures r.Pass? ==>
      h.chunks == MapperSrc(AsWritten, m, rms, ins, ups, sels).value.h &&
      c.chunks == MapperSrc(AsWritten, m, rms, ins, ups, sels).value.c
  {
    var filenameH := "yb_" + m.namespace + ".h";
    c := new OutFile();
    h := new OutFile();
    WriteGuardStart(h, m);
    WriteIncludes(c, filenameH);
    r := WriteResultMaps(h, c, rms);
    if r.Fail? {
      return;
    }
    ghost var rr := ResultMapsOut(rms).value;
    r := WriteInserts(h, c, ins, m);
    if r.Fail? {
      return;
    }
    ghost var ri := InsertsOut(AsWritten, ins, m).value;
    r := WriteUpdates(h, c, ups, m);
    if r.Fail? {
      return;
    }
    ghost var ru := UpdatesOut(AsWritten, ups, m).value;
    r := WriteSelects(h, c, sels, m);
    if r.Fail? {
      return;
    }
    ghost var rs := SelectsOut(AsWritten, sels, m).value;
    WriteGuardEnd(h, m);
    assert [] + GuardStart(m.namespace) == GuardStart(m.namespace);
    assert [] + Includes(filenameH) == Includes(filenameH);
    assert MapperSrc(AsWritten, m, rms, ins, ups, sels) ==
      Success(Emitted(GuardStart(m.namespace) + rr.h + ri.h + ru.h + rs.h + GuardEnd(m.namespace),
                      Includes(filenameH) + rr.c + ri.c + ru.c + rs.c));
  }

  lemma {:induction false} ResultMapsFailurePropagates(rms: seq<YoResultMap>, i: nat)
    requires i <= |rms| && ResultMapsOut(rms[..i]).Failure?
    ensures ResultMapsOut(rms).Failure?
    decreases |rms| - i
  {
    if i < |rms| {
      assert rms[..i + 1][..i] == rms[..i];
      ResultMapsFailurePropagates(rms, i + 1);
    } else {
      assert rms[..i] == rms;
    }
  }

  lemma {:induction false} InsertsFailurePropagates(ss: seq<YoInsert>, m: Mapper, i: nat)
    requires i <= |ss| && InsertsOut(AsWritten, ss[..i], m).Failure?
    ensures InsertsOut(AsWritten, ss, m).Failure?
    decreases |ss| - i
  {
    if i < |ss| {
      assert ss[..i + 1][..i] == ss[..i];
      InsertsFailurePropagates(ss, m, i + 1);
    } else {
      assert ss[..i] == ss;
    }
  }

  lemma {:induction false} UpdatesFailurePropagates(ss: seq<YoUpdate>, m: Mapper, i: nat)
    requires i <= |ss| && UpdatesOut(AsWritten, ss[..i], m).Failure?
    ensures UpdatesOut(AsWritten, ss, m).Failure?
    decreases |ss| - i
  {
    if i < |ss| {
      assert ss[..i + 1][..i] == ss[..i];
      UpdatesFailurePropagates(ss, m, i + 1);
    } else {
      assert ss[..i] == ss;
    }
  }

  lemma {:induction false} SelectsFailurePropagates(ss: seq<YoSelect>, m: Mapper, i: nat)
    requires i <= |ss| && SelectsOut(AsWritten, ss[..i], m).Failure?
    ensures SelectsOut(AsWritten, ss, m).Failure?
    decreases |ss| - i
  {
    if i < |ss| {
      assert ss[..i + 1][..i] == ss[..i];
      SelectsFailurePropagates(ss, m, i + 1);
    } else {
      assert ss[..i] == ss;
    }
  }
}
