/** What the generated C code does when it runs: the placeholder rewrite
    loop that turns the built command into the prepared statement text and
    its parameter binds, and the building code that fills the command from
    the dynamic-SQL elements. Both are stated as written and as evidently
    intended. */
module PrepareRuntime {
  import opened Base
  import opened YbString
  import opened GenMapper
  import opened GenC

  const HASH: bv8 := 0x23
  const OPEN: bv8 := 0x7B
  const CLOSE: bv8 := 0x7D
  const QMARK: bv8 := 0x3F

  /** The bytes of a name as the generated C string literal holds them
      (one byte per character). */
  function NameBytes(s: string): (r: Bytes)
    ensures |r| == |s|
  {
    seq(|s|, k requires 0 <= k < |s| => (s[k] as int % 256) as bv8)
  }

  /** A parameter field as the loop tests it: its name and how it is bound. */
  datatype Field = Field(name: Bytes, kind: BindKind)

  function FieldOf(r: YoResult): Field
  {
    Field(NameBytes(r.property), BindKindOf(r.yoType))
  }

  /** The fields of a result map, in declared order. */
  function FieldsOf(rs: seq<YoResult>): (fs: seq<Field>)
    ensures |fs| == |rs| && forall k :: 0 <= k < |rs| ==> fs[k] == FieldOf(rs[k])
  {
    seq(|rs|, k requires 0 <= k < |rs| => FieldOf(rs[k]))
  }

  /** One entry of the bind array: how and which field of `n` is bound. */
  datatype Bind = Bind(kind: BindKind, property: Bytes)

  /** The prepared statement text and the binds, in order. */
  datatype Prepared = Prepared(sql: Bytes, binds: seq<Bind>)

  // ---------------------------------------------------------------------
  // The placeholder rewrite loop

  /** A placeholder starts at `i`: "#{" with the brace inside the command. */
  predicate OpensAt(cmd: Bytes, i: nat)
  {
    i + 1 < |cmd| && cmd[i] == HASH && cmd[i + 1] == OPEN
  }

  /** The first '}' at or after `from`, or the end of the command. */
  function FindClose(cmd: Bytes, from: nat): (e: nat)
    requires from <= |cmd|
    ensures from <= e <= |cmd|
    decreases |cmd| - from
  {
    if from == |cmd| || cmd[from] == CLOSE then from else FindClose(cmd, from + 1)
  }

  /** The name test of the loop: as written it holds when the names differ
      (the nonzero result of yb_string_compare_cstr), as intended when they
      are equal. */
  predicate Selects(fixed: bool, name: Bytes, field: Bytes)
  {
    if fixed then name == field else name != field
  }

  /** The '?' marks and binds one placeholder contributes, each field checked
      in declared order. */
  function Marks(fixed: bool, name: Bytes, fields: seq<Field>): Prepared
  {
    if fields == [] then Prepared([], [])
    else
      var p := Marks(fixed, name, fields[..|fields| - 1]);
      var f := fields[|fields| - 1];
      if Selects(fixed, name, f.name) then Prepared(p.sql + [QMARK], p.binds + [Bind(f.kind, f.name)]) else p
  }

  /** The loop from position `i`, with the text from `pre` not yet copied.
      As written, copying resumes at the closing brace, so the brace is
      kept; as intended, it resumes after it. Scanning resumes after the
      brace either way. */
  function Scan(fixed: bool, cmd: Bytes, fields: seq<Field>, i: nat, pre: nat): Prepared
    requires pre <= i <= |cmd| + 1 && pre <= |cmd|
    decreases |cmd| + 1 - i
  {
    if i >= |cmd| then Prepared(cmd[pre..], [])
    else if OpensAt(cmd, i) then
      var e := FindClose(cmd, i + 2);
      var mk := Marks(fixed, cmd[i + 2..e], fields);
      var rest := Scan(fixed, cmd, fields, e + 1, Resume(fixed, cmd, e));
      Prepared(cmd[pre..i] + mk.sql + rest.sql, mk.binds + rest.binds)
    else Scan(fixed, cmd, fields, i + 1, pre)
  }

  /** Where copying resumes after a placeholder whose name ends at `e`. */
  function Resume(fixed: bool, cmd: Bytes, e: nat): (r: nat)
    requires e <= |cmd|
    ensures e <= r <= |cmd| && r <= e + 1
  {
    if fixed && e < |cmd| then e + 1 else e
  }

  /** The prepared text and binds of a whole command. */
  function Prepare(fixed: bool, cmd: Bytes, fields: seq<Field>): Prepared
  {
    Scan(fixed, cmd, fields, 0, 0)
  }

  /** The emitted loop run over `cmd`, appending to `prepareSql` (the
      statement's own buffer, distinct from `cmd`); the bind array is
      returned as the sequence of its entries. */
  method PrepareSql(cmd: Str, fields: seq<Field>, prepareSql: Str) returns (binds: seq<Bind>)
    requires cmd != prepareSql
    modifies prepareSql
    ensures prepareSql.data == old(prepareSql.data) + Prepare(false, cmd.data, fields).sql
    ensures binds == Prepare(false, cmd.data, fields).binds
    ensures prepareSql.owned == (old(prepareSql.owned) || Prepare(false, cmd.data, fields).sql != [])
  {
    var data := cmd.data;
    ghost var d0, o0 := prepareSql.data, prepareSql.owned;
    ghost var total := Prepare(false, data, fields);
    var pre: nat := 0;
    var i: nat := 0;
    binds := [];
    while i < |data|
      invariant pre <= i <= |data| + 1 && pre <= |data|
      invariant prepareSql.data + Scan(false, data, fields, i, pre).sql == d0 + total.sql
      invariant binds + Scan(false, data, fields, i, pre).binds == total.binds
      invariant |d0| <= |prepareSql.data|
      invariant prepareSql.owned == (o0 || |prepareSql.data| > |d0|)
      decreases |data| + 1 - i
    {
      if i < |data| - 1 && data[i] == HASH && data[i + 1] == OPEN {
        ghost var before := prepareSql.data;
        ScanHole(false, data, fields, i, pre);
        var e, bs := WriteHole(prepareSql, data, i, pre, fields);
        ghost var mk := Marks(false, data[i + 2..e], fields);
        ghost var rest := Scan(false, data, fields, e + 1, e);
        Regroup(before, data[pre..i], mk.sql, rest.sql);
        AppendAssoc(binds, mk.binds, rest.binds);
        binds := binds + bs;
        pre := e;
        i := e;
      }
      i := i + 1;
    }
    var _ := AppendData(prepareSql, data[pre..]);
  }

  /** One placeholder at `i`: copy the text before it, find its closing
      brace (or the end), and run the field tests on the name between. */
  method WriteHole(prepareSql: Str, data: Bytes, i: nat, pre: nat, fields: seq<Field>) returns (e: nat, bs: seq<Bind>)
    requires pre <= i && OpensAt(data, i)
    modifies prepareSql
    ensures e == FindClose(data, i + 2)
    ensures prepareSql.data == old(prepareSql.data) + data[pre..i] + Marks(false, data[i + 2..e], fields).sql
    ensures bs == Marks(false, data[i + 2..e], fields).binds
    ensures prepareSql.owned == (old(prepareSql.owned) || |prepareSql.data| > |old(prepareSql.data)|)
  {
    var _ := AppendData(prepareSql, data[pre..i]);
    e := i + 2;
    while e < |data| && data[e] != CLOSE
      invariant i + 2 <= e <= |data|
      invariant forall k :: i + 2 <= k < e ==> data[k] != CLOSE
    {
      e := e + 1;
    }
    FindCloseUnique(data, i + 2, e);
    var valTmp := new Str();
    var _ := RefData(valTmp, data[i + 2..e]);
    bs := WriteMarks(prepareSql, valTmp, fields);
  }

  /** The loop's step at a placeholder, unfolded. */
  lemma ScanHole(fixed: bool, cmd: Bytes, fields: seq<Field>, i: nat, pre: nat)
    requires pre <= i && OpensAt(cmd, i)
    ensures var e := FindClose(cmd, i + 2);
      var mk := Marks(fixed, cmd[i + 2..e], fields);
      var rest := Scan(fixed, cmd, fields, e + 1, Resume(fixed, cmd, e));
      Scan(fixed, cmd, fields, i, pre) == Prepared(cmd[pre..i] + mk.sql + rest.sql, mk.binds + rest.binds)
  {
  }

  /** The field tests for one placeholder: each field whose name the test
      selects appends a '?' and takes the next bind entry. */
  method WriteMarks(prepareSql: Str, valTmp: Str, fields: seq<Field>) returns (bs: seq<Bind>)
    requires prepareSql != valTmp
    modifies prepareSql
    ensures prepareSql.data == old(prepareSql.data) + Marks(false, valTmp.data, fields).sql
    ensures bs == Marks(false, valTmp.data, fields).binds
    ensures prepareSql.owned == (old(prepareSql.owned) || Marks(false, valTmp.data, fields).sql != [])
  {
    bs := [];
    ghost var d0 := prepareSql.data;
    for k := 0 to |fields|
      invariant prepareSql.data == d0 + Marks(false, valTmp.data, fields[..k]).sql
      invariant bs == Marks(false, valTmp.data, fields[..k]).binds
      invariant prepareSql.owned == (old(prepareSql.owned) || Marks(false, valTmp.data, fields[..k]).sql != [])
    {
      assert fields[..k + 1][..k] == fields[..k];
      if CompareCstr(valTmp, Some(fields[k].name)) != 0 {
        var _ := AppendCStr(prepareSql, [QMARK]);
        bs := bs + [Bind(fields[k].kind, fields[k].name)];
      }
    }
    assert fields[..|fields|] == fields;
  }

  lemma FindCloseUnique(cmd: Bytes, from: nat, p: nat)
    requires from <= p <= |cmd|
    requires forall k :: from <= k < p ==> cmd[k] != CLOSE
    requires p < |cmd| ==> cmd[p] == CLOSE
    ensures p == FindClose(cmd, from)
    decreases p - from
  {
    if from < p {
      FindCloseUnique(cmd, from + 1, p);
    }
  }

  /** FindClose stops at the first '}': none before it, and a '}' at it
      unless it is the end. */
  lemma {:induction false} FindCloseMeaning(cmd: Bytes, from: nat)
    requires from <= |cmd|
    ensures forall k :: from <= k < FindClose(cmd, from) ==> cmd[k] != CLOSE
    ensures FindClose(cmd, from) < |cmd| ==> cmd[FindClose(cmd, from)] == CLOSE
    decreases |cmd| - from
  {
    if from < |cmd| && cmd[from] != CLOSE {
      FindCloseMeaning(cmd, from + 1);
    }
  }

  lemma Regroup<T>(a: seq<T>, b: seq<T>, c: seq<T>, d: seq<T>)
    ensures ((a + b) + c) + d == a + ((b + c) + d)
  {
  }

  // ---------------------------------------------------------------------
  // What the loop computes

  /** No "#{" at or after `i`. */
  predicate NoOpenFrom(cmd: Bytes, i: nat)
  {
    forall k :: i <= k < |cmd| ==> !OpensAt(cmd, k)
  }

  lemma {:induction false} ScanNoHole(fixed: bool, cmd: Bytes, fields: seq<Field>, i: nat, pre: nat)
    requires pre <= i <= |cmd| + 1 && pre <= |cmd|
    requires NoOpenFrom(cmd, i)
    ensures Scan(fixed, cmd, fields, i, pre) == Prepared(cmd[pre..], [])
    decreases |cmd| + 1 - i
  {
    if i < |cmd| {
      ScanNoHole(fixed, cmd, fields, i + 1, pre);
    }
  }

  /** A command without "#{" is copied unchanged and binds nothing,
      as written and as intended. */
  lemma PrepareNoHole(fixed: bool, cmd: Bytes, fields: seq<Field>)
    requires NoOpenFrom(cmd, 0)
    ensures Prepare(fixed, cmd, fields) == Prepared(cmd, [])
  {
    ScanNoHole(fixed, cmd, fields, 0, 0);
  }

  /** One placeholder's contribution: a '?' per bind, and the binds are the
      fields the name test selects, each bound by its kind. As written these
      are the fields whose names differ from the placeholder's; as intended,
      the ones named like it. */
  lemma {:induction false} MarksMeaning(fixed: bool, name: Bytes, fields: seq<Field>)
    ensures var r := Marks(fixed, name, fields);
      |r.sql| == |r.binds| <= |fields| &&
      (forall k :: 0 <= k < |r.sql| ==> r.sql[k] == QMARK) &&
      (forall b :: b in r.binds <==> Field(b.property, b.kind) in fields && Selects(fixed, name, b.property))
    decreases |fields|
  {
    if fields != [] {
      var init := fields[..|fields| - 1];
      var f := fields[|fields| - 1];
      MarksMeaning(fixed, name, init);
      assert fields == init + [f];
      forall b: Bind
        ensures Field(b.property, b.kind) in fields <==> Field(b.property, b.kind) in init || Field(b.property, b.kind) == f
      {
      }
    }
  }

  /** Text before `pre'` that is still to be copied can be split off. */
  lemma {:induction false} ScanPre(fixed: bool, cmd: Bytes, fields: seq<Field>, i: nat, pre: nat, pre': nat)
    requires pre <= pre' <= i <= |cmd| + 1 && pre' <= |cmd|
    ensures Scan(fixed, cmd, fields, i, pre).sql == cmd[pre..pre'] + Scan(fixed, cmd, fields, i, pre').sql
    ensures Scan(fixed, cmd, fields, i, pre).binds == Scan(fixed, cmd, fields, i, pre').binds
    decreases |cmd| + 1 - i
  {
    if i >= |cmd| {
      assert cmd[pre..] == cmd[pre..pre'] + cmd[pre'..];
    } else if OpensAt(cmd, i) {
      assert cmd[pre..i] == cmd[pre..pre'] + cmd[pre'..i];
    } else {
      ScanPre(fixed, cmd, fields, i + 1, pre, pre');
    }
  }

  lemma FindCloseShift(p: Bytes, q: Bytes, j: nat)
    requires j <= |q|
    ensures FindClose(p + q, |p| + j) == |p| + FindClose(q, j)
  {
    var e := |p| + FindClose(q, j);
    FindCloseMeaning(q, j);
    forall k | |p| + j <= k < e
      ensures (p + q)[k] != CLOSE
    {
      assert (p + q)[k] == q[k - |p|];
    }
    FindCloseUnique(p + q, |p| + j, e);
  }

  /** The loop over the part of a command after `p` does not depend on `p`. */
  lemma {:induction false} ScanShift(fixed: bool, p: Bytes, q: Bytes, fields: seq<Field>, j: nat, k: nat)
    requires k <= j <= |q| + 1 && k <= |q|
    ensures Scan(fixed, p + q, fields, |p| + j, |p| + k) == Scan(fixed, q, fields, j, k)
    decreases |q| + 1 - j
  {
    if j >= |q| {
      SliceShift(p, q, k, |q|);
      assert (p + q)[|p| + k..] == (p + q)[|p| + k..|p| + |q|];
    } else if OpensAt(q, j) {
      var e := FindClose(q, j + 2);
      ScanShift(fixed, p, q, fields, e + 1, Resume(fixed, q, e));
      ScanShiftHoleCase(fixed, p, q, fields, j, k);
    } else {
      ScanShift(fixed, p, q, fields, j + 1, k);
      ScanShiftStepCase(fixed, p, q, fields, j, k);
    }
  }

  /** The placeholder case of ScanShift, given the shift of the rest: both
      sides unfold alike. */
  lemma ScanShiftHoleCase(fixed: bool, p: Bytes, q: Bytes, fields: seq<Field>, j: nat, k: nat)
    requires k <= j < |q| && OpensAt(q, j)
    requires var e := FindClose(q, j + 2);
      Scan(fixed, p + q, fields, |p| + e + 1, |p| + Resume(fixed, q, e)) == Scan(fixed, q, fields, e + 1, Resume(fixed, q, e))
    ensures Scan(fixed, p + q, fields, |p| + j, |p| + k) == Scan(fixed, q, fields, j, k)
  {
    var cmd := p + q;
    var e := FindClose(q, j + 2);
    var r := Resume(fixed, q, e);
    var mk := Marks(fixed, q[j + 2..e], fields);
    calc {
      Scan(fixed, cmd, fields, |p| + j, |p| + k);
    == { ScanHoleShifted(fixed, p, q, fields, j, k, e, r); }
      Spliced(q[k..j], mk, Scan(fixed, cmd, fields, |p| + e + 1, |p| + r));
    ==
      Spliced(q[k..j], mk, Scan(fixed, q, fields, e + 1, r));
    == { ScanHoleAt(fixed, q, fields, j, k, e, r, q[k..j], q[j + 2..e]); }
      Scan(fixed, q, fields, j, k);
    }
  }

  /** The placeholder step on `p + q`, in the terms of `q`. */
  lemma ScanHoleShifted(fixed: bool, p: Bytes, q: Bytes, fields: seq<Field>, j: nat, k: nat, e: nat, r: nat)
    requires k <= j < |q| && OpensAt(q, j) && e == FindClose(q, j + 2) && r == Resume(fixed, q, e)
    ensures Scan(fixed, p + q, fields, |p| + j, |p| + k) ==
      Spliced(q[k..j], Marks(fixed, q[j + 2..e], fields), Scan(fixed, p + q, fields, |p| + e + 1, |p| + r))
  {
    HoleShiftFacts(fixed, p, q, j, k, e, r);
    ScanHoleAt(fixed, p + q, fields, |p| + j, |p| + k, |p| + e, |p| + r, q[k..j], q[j + 2..e]);
  }

  /** A placeholder of `q` at `j` is one of `p + q` at `|p| + j`, with the
      same name, the same text before it and the same resume point. */
  lemma HoleShiftFacts(fixed: bool, p: Bytes, q: Bytes, j: nat, k: nat, e: nat, r: nat)
    requires k <= j < |q| && OpensAt(q, j) && e == FindClose(q, j + 2) && r == Resume(fixed, q, e)
    ensures OpensAt(p + q, |p| + j) && |p| + e == FindClose(p + q, |p| + j + 2)
    ensures |p| + r == Resume(fixed, p + q, |p| + e)
    ensures q[k..j] == (p + q)[|p| + k..|p| + j] && q[j + 2..e] == (p + q)[|p| + j + 2..|p| + e]
  {
    var cmd := p + q;
    assert OpensAt(cmd, |p| + j) by {
      assert cmd[|p| + j] == q[j] && cmd[|p| + j + 1] == q[j + 1];
    }
    FindCloseShift(p, q, j + 2);
    SliceShift(p, q, j + 2, e);
    SliceShift(p, q, k, j);
  }

  /** The plain-byte case of ScanShift, given the shift of the rest. */
  lemma ScanShiftStepCase(fixed: bool, p: Bytes, q: Bytes, fields: seq<Field>, j: nat, k: nat)
    requires k <= j < |q| && !OpensAt(q, j)
    requires Scan(fixed, p + q, fields, |p| + j + 1, |p| + k) == Scan(fixed, q, fields, j + 1, k)
    ensures Scan(fixed, p + q, fields, |p| + j, |p| + k) == Scan(fixed, q, fields, j, k)
  {
    var cmd := p + q;
    assert !OpensAt(cmd, |p| + j) by {
      assert cmd[|p| + j] == q[j];
      if j + 1 < |q| {
        assert cmd[|p| + j + 1] == q[j + 1];
      }
    }
    ScanStep(fixed, cmd, fields, |p| + j, |p| + k);
    ScanStep(fixed, q, fields, j, k);
  }

  /** The loop's step past a byte that does not start a placeholder. */
  lemma ScanStep(fixed: bool, cmd: Bytes, fields: seq<Field>, i: nat, pre: nat)
    requires pre <= i < |cmd| && !OpensAt(cmd, i)
    ensures Scan(fixed, cmd, fields, i, pre) == Scan(fixed, cmd, fields, i + 1, pre)
  {
  }

  lemma SliceShift<T>(p: seq<T>, q: seq<T>, a: nat, b: nat)
    requires a <= b <= |q|
    ensures (p + q)[|p| + a..|p| + b] == q[a..b]
  {
    assert forall i :: 0 <= i < b - a ==> (p + q)[|p| + a..|p| + b][i] == q[a..b][i];
  }

  /** The copied text `before`, then a placeholder's marks, then the rest. */
  function Spliced(before: Bytes, mk: Prepared, rest: Prepared): Prepared
  {
    Prepared(before + mk.sql + rest.sql, mk.binds + rest.binds)
  }

  /** ScanHole with the end of the name, the resume point and the two
      copied pieces given. */
  lemma ScanHoleAt(fixed: bool, cmd: Bytes, fields: seq<Field>, i: nat, pre: nat, e: nat, r: nat, before: Bytes, name: Bytes)
    requires pre <= i && OpensAt(cmd, i) && e == FindClose(cmd, i + 2)
    requires r == Resume(fixed, cmd, e) && before == cmd[pre..i] && name == cmd[i + 2..e]
    ensures Scan(fixed, cmd, fields, i, pre) == Spliced(before, Marks(fixed, name, fields), Scan(fixed, cmd, fields, e + 1, r))
  {
    ScanHole(fixed, cmd, fields, i, pre);
  }

  /** Skipping text with no placeholder start leaves the copying to come. */
  lemma {:induction false} ScanSkip(fixed: bool, cmd: Bytes, fields: seq<Field>, i: nat, j: nat)
    requires i <= j <= |cmd|
    requires forall k :: i <= k < j ==> !OpensAt(cmd, k)
    ensures Scan(fixed, cmd, fields, i, 0) == Scan(fixed, cmd, fields, j, 0)
    decreases j - i
  {
    if i < j {
      ScanSkip(fixed, cmd, fields, i + 1, j);
    }
  }

  /** No "#{" inside `a`. */
  predicate NoOpen(a: Bytes)
  {
    forall k :: 0 <= k < |a| - 1 ==> !(a[k] == HASH && a[k + 1] == OPEN)
  }

  /** A command made of plain text `a`, a closed placeholder named `n` and
      the rest `b`: its prepared text is `a`, the placeholder's marks, then
      (as written only) the closing brace, then the prepared rest; its binds
      are the placeholder's followed by the rest's. */
  lemma HoleSegment(fixed: bool, a: Bytes, n: Bytes, b: Bytes, fields: seq<Field>)
    requires NoOpen(a) && CLOSE !in n
    ensures var mk := Marks(fixed, n, fields);
      var r := Prepare(fixed, b, fields);
      Prepare(fixed, a + [HASH, OPEN] + n + [CLOSE] + b, fields) ==
      Prepared(a + mk.sql + (if fixed then [] else [CLOSE]) + r.sql, mk.binds + r.binds)
  {
    var front := a + [HASH, OPEN] + n;
    var cmd := (front + [CLOSE]) + b;
    assert cmd == a + [HASH, OPEN] + n + [CLOSE] + b;
    var e := |front|;
    var mk := Marks(fixed, n, fields);
    var r := Prepare(fixed, b, fields);
    var brace: Bytes := if fixed then [] else [CLOSE];
    var rest := Scan(fixed, cmd, fields, e + 1, Resume(fixed, cmd, e));
    assert rest == Prepared(brace + r.sql, r.binds) by {
      ScanShift(fixed, front + [CLOSE], b, fields, 0, 0);
      if !fixed {
        ScanPre(fixed, cmd, fields, e + 1, e, e + 1);
        assert cmd[e..e + 1] == [CLOSE];
      }
    }
    HoleSegmentFront(fixed, a, n, b, fields);
    calc {
      Prepare(fixed, cmd, fields);
    == { ScanHoleAt(fixed, cmd, fields, |a|, 0, e, Resume(fixed, cmd, e), a, n); }
      Spliced(a, mk, rest);
    == { AppendAssoc(a + mk.sql, brace, r.sql); }
      Prepared(a + mk.sql + brace + r.sql, mk.binds + r.binds);
    }
  }

  /** The facts HoleSegment unfolds the loop with: nothing opens inside `a`,
      a placeholder opens after it, and its name is `n`, closed by the brace. */
  lemma HoleSegmentFront(fixed: bool, a: Bytes, n: Bytes, b: Bytes, fields: seq<Field>)
    requires NoOpen(a) && CLOSE !in n
    ensures var cmd := (a + [HASH, OPEN] + n + [CLOSE]) + b;
      var e := |a| + 2 + |n|;
      && Prepare(fixed, cmd, fields) == Scan(fixed, cmd, fields, |a|, 0)
      && OpensAt(cmd, |a|) && e == FindClose(cmd, |a| + 2)
      && a == cmd[0..|a|] && n == cmd[|a| + 2..e]
  {
    var front := a + [HASH, OPEN] + n;
    var cmd := (front + [CLOSE]) + b;
    forall k | 0 <= k < |a|
      ensures !OpensAt(cmd, k)
    {
      assert cmd[k] == a[k];
      if k + 1 < |a| {
        assert cmd[k + 1] == a[k + 1];
      } else {
        assert cmd[k + 1] == HASH;
      }
    }
    ScanSkip(fixed, cmd, fields, 0, |a|);
    assert OpensAt(cmd, |a|);
    var e := |front|;
    assert cmd[e] == CLOSE;
    forall k | |a| + 2 <= k < e
      ensures cmd[k] != CLOSE
    {
      assert cmd[k] == n[k - |a| - 2];
    }
    FindCloseUnique(cmd, |a| + 2, e);
    assert cmd[|a| + 2..e] == n;
    assert cmd[0..|a|] == a;
  }

  /** A placeholder left open at the end: its marks end the prepared text. */
  lemma OpenHoleAtEnd(fixed: bool, a: Bytes, n: Bytes, fields: seq<Field>)
    requires NoOpen(a) && CLOSE !in n
    ensures var mk := Marks(fixed, n, fields);
      Prepare(fixed, a + [HASH, OPEN] + n, fields) == Prepared(a + mk.sql, mk.binds)
  {
    var cmd := a + [HASH, OPEN] + n;
    forall k | 0 <= k < |a|
      ensures !OpensAt(cmd, k)
    {
      assert cmd[k] == a[k];
      if k + 1 < |a| {
        assert cmd[k + 1] == a[k + 1];
      } else {
        assert cmd[k + 1] == HASH;
      }
    }
    ScanSkip(fixed, cmd, fields, 0, |a|);
    assert OpensAt(cmd, |a|);
    forall k | |a| + 2 <= k < |cmd|
      ensures cmd[k] != CLOSE
    {
      assert cmd[k] == n[k - |a| - 2];
    }
    FindCloseUnique(cmd, |a| + 2, |cmd|);
    assert cmd[|a| + 2..|cmd|] == n;
    assert cmd[0..|a|] == a;
  }

  /** "#{id}" with the single parameter field id: as written the name test
      fails, nothing is bound and the prepared text is "}"; as intended it is
      "?" with id bound as a 64-bit integer. */
  lemma PlaceholderAsWritten()
    ensures Prepare(false, [HASH, OPEN, 0x69, 0x64, CLOSE], [Field([0x69, 0x64], LongLong)]) == Prepared([CLOSE], [])
    ensures Prepare(true, [HASH, OPEN, 0x69, 0x64, CLOSE], [Field([0x69, 0x64], LongLong)]) ==
      Prepared([QMARK], [Bind(LongLong, [0x69, 0x64])])
  {
    var fs := [Field([0x69, 0x64], LongLong)];
    HoleSegment(false, [], [0x69, 0x64], [], fs);
    HoleSegment(true, [], [0x69, 0x64], [], fs);
    PrepareNoHole(false, [], fs);
    PrepareNoHole(true, [], fs);
    assert [] + [HASH, OPEN] + [0x69, 0x64] + [CLOSE] + [] == [HASH, OPEN, 0x69, 0x64, CLOSE];
    assert fs[..0] == [];
  }

  /** As intended, every bind of a placeholder is the field it names. */
  lemma FixedBindsFollowNames(name: Bytes, fields: seq<Field>)
    ensures forall b :: b in Marks(true, name, fields).binds ==> b.property == name && Field(name, b.kind) in fields
    ensures forall f :: f in fields && f.name == name ==> Bind(f.kind, name) in Marks(true, name, fields).binds
  {
    MarksMeaning(true, name, fields);
  }

  /** As written, no placeholder ever binds the field it names. */
  lemma AsWrittenNeverBindsNamed(name: Bytes, fields: seq<Field>)
    ensures forall b :: b in Marks(false, name, fields).binds ==> b.property != name
  {
    MarksMeaning(false, name, fields);
  }

  // ---------------------------------------------------------------------
  // The building code

  /** What the building code for `elems` leaves in a buffer that held `acc`:
      text and included fragments are appended, an if appends its own
      buffer when its test holds (`holds` is the set of tests true for the
      parameter), and a trim trims its own buffer into the enclosing one.
      As written (`fixTrim` false) yb_string_trim clears its destination
      first, so whatever the enclosing buffer held is lost; as intended the
      trimmed text is appended. When the overrides do not fit the trim
      fails and the buffer is left as it was. A text contributes the text
      itself. That is what its emitted C literal denotes only when the text
      has no quote or backslash (EscapeRoundTrip). Otherwise the literal is
      ill-formed or denotes other bytes (EscapeNotInvertible), and this
      function does not describe such a build. An include is taken to
      append its fragment's text, which is emitted through the same
      escaping, so the same condition applies. As written the include line
      lacks its ";" (IncludeLineUnterminated), so emitted code with an
      include does not compile; this function describes the build with the
      corrected include line. */
  function BuildElems(fixTrim: bool, sqls: map<string, YoSql>, holds: set<string>, elems: seq<SqlElement>,
                      acc: string): string
    requires IncludesResolved(elems, sqls)
    decreases elems
  {
    if elems == [] then acc
    else
      var init := elems[..|elems| - 1];
      assert forall k :: 0 <= k < |init| ==> init[k] == elems[k];
      BuildElem(fixTrim, sqls, holds, elems[|elems| - 1], BuildElems(fixTrim, sqls, holds, init, acc))
  }

  function BuildElem(fixTrim: bool, sqls: map<string, YoSql>, holds: set<string>, e: SqlElement,
                     acc: string): string
    requires ElemResolved(e, sqls)
    decreases e
  {
    match e
    case YoText(t) => acc + t
    case YoInclude(refid) => acc + sqls[refid].text
    case YoIf(test, content) =>
      if test in holds then acc + BuildElems(fixTrim, sqls, holds, content, "") else acc
    case YoTrim(prefix, suffix, suffixOverrides, prefixOverrides, content) =>
      var tmp := BuildElems(fixTrim, sqls, holds, content, "");
      match TrimAsWritten(tmp, prefix, suffix, prefixOverrides, suffixOverrides)
      case None => acc
      case Some(v) => if fixTrim then acc + v else v
  }

  /** As intended, building appends: the result is what the buffer held,
      followed by what the elements build on their own. */
  lemma {:induction false} BuildFixedAppends(sqls: map<string, YoSql>, holds: set<string>, elems: seq<SqlElement>,
                                             acc: string)
    requires IncludesResolved(elems, sqls)
    ensures BuildElems(true, sqls, holds, elems, acc) == acc + BuildElems(true, sqls, holds, elems, "")
    decreases elems
  {
    if elems != [] {
      var init := elems[..|elems| - 1];
      var last := elems[|elems| - 1];
      assert forall k :: 0 <= k < |init| ==> init[k] == elems[k];
      BuildFixedAppends(sqls, holds, init, acc);
      var a := BuildElems(true, sqls, holds, init, acc);
      var a0 := BuildElems(true, sqls, holds, init, "");
      BuildElemFixedAppends(sqls, holds, last, a);
      BuildElemFixedAppends(sqls, holds, last, a0);
      AppendAssoc(acc, a0, BuildElem(true, sqls, holds, last, ""));
    }
  }

  lemma BuildElemFixedAppends(sqls: map<string, YoSql>, holds: set<string>, e: SqlElement, acc: string)
    requires ElemResolved(e, sqls)
    ensures BuildElem(true, sqls, holds, e, acc) == acc + BuildElem(true, sqls, holds, e, "")
  {
  }

  /** The as-written trim discards what its enclosing buffer held: "a"
      followed by a trim of "b" builds "b", where the intended "ab" keeps
      the text before the trim. */
  lemma TrimOverwritesParent()
    ensures var elems := [YoText("a"), YoTrim("", "", "", "", [YoText("b")])];
      IncludesResolved(elems, map[]) &&
      BuildElems(false, map[], {}, elems, "") == "b" &&
      BuildElems(true, map[], {}, elems, "") == "ab"
  {
    var t := YoTrim("", "", "", "", [YoText("b")]);
    TextThenTrim(t);
    BuildTwo(false, map[], {}, YoText("a"), t, "");
    BuildTwo(true, map[], {}, YoText("a"), t, "");
  }

  lemma BuildTwo(fixTrim: bool, sqls: map<string, YoSql>, holds: set<string>, e1: SqlElement, e2: SqlElement,
                 acc: string)
    requires ElemResolved(e1, sqls) && ElemResolved(e2, sqls)
    ensures IncludesResolved([e1, e2], sqls)
    ensures BuildElems(fixTrim, sqls, holds, [e1, e2], acc) ==
      BuildElem(fixTrim, sqls, holds, e2, BuildElem(fixTrim, sqls, holds, e1, acc))
  {
    var elems := [e1, e2];
    assert elems[..1] == [e1] && [e1][..0] == [];
    assert IncludesResolved([e1], sqls);
    assert BuildElems(fixTrim, sqls, holds, [e1][..0], acc) == acc;
    assert BuildElems(fixTrim, sqls, holds, [e1], acc) == BuildElem(fixTrim, sqls, holds, e1, acc);
  }

  lemma BuildOneText(fixTrim: bool, t: string)
    ensures IncludesResolved([YoText(t)], map[])
    ensures BuildElems(fixTrim, map[], {}, [YoText(t)], "") == t
  {
    assert ElemResolved([YoText(t)][0], map[]);
    assert [YoText(t)][..0] == [];
  }

  lemma TextThenTrim(t: SqlElement)
    requires t == YoTrim("", "", "", "", [YoText("b")])
    ensures ElemResolved(t, map[])
    ensures forall fx: bool, acc: string :: BuildElem(fx, map[], {}, t, acc) == if fx then acc + "b" else "b"
  {
    BuildOneText(false, "b");
    BuildOneText(true, "b");
    var b := "b";
    assert b[0..0] == "" && b[1..] == "" && b[0..1] == b;
    assert "" + b + "" == b;
    assert TrimAsWritten(b, "", "", "", "") == Some(b);
  }
}
