/** The pure part of reading a MySQL schema: classifying a column's SQL
    type, making the DDL idempotent, and the column flags. */
module InitMysql {
  import opened Base
  import opened InitInfo

  /** parse_column_type: any type containing "int" or "bit" is INT; of the
      rest, any containing "float", "dec", "numeric" or "double" is FLOAT;
      everything else is STRING. Matching is a case-sensitive substring
      test (an unanchored regular expression), and no type is rejected. */
  function ParseColumnType(columnType: string): (r: ColumnType)
    ensures r == INT <==> Contains(columnType, "int") || Contains(columnType, "bit")
    ensures r == FLOAT <==>
      !Contains(columnType, "int") && !Contains(columnType, "bit") &&
      (Contains(columnType, "float") || Contains(columnType, "dec") ||
       Contains(columnType, "numeric") || Contains(columnType, "double"))
  {
    if Contains(columnType, "int") || Contains(columnType, "bit") then INT
    else if Contains(columnType, "float") || Contains(columnType, "dec") ||
            Contains(columnType, "numeric") || Contains(columnType, "double") then FLOAT
    else STRING
  }

  /** `sub` occurs at `i`, so it occurs. */
  lemma {:induction false} ContainsAt(s: string, sub: string, i: nat)
    requires OccursAt(s, sub, i)
    ensures Contains(s, sub)
    decreases i
  {
    if i == 0 {
      assert s[..|sub|] == sub;
    } else {
      assert s[1..][i - 1..i - 1 + |sub|] == s[i..i + |sub|];
      ContainsAt(s[1..], sub, i - 1);
    }
  }

  /** `sub` occurs nowhere, so it is not contained. */
  lemma {:induction false} NotContains(s: string, sub: string)
    requires forall j: nat :: !OccursAt(s, sub, j)
    ensures !Contains(s, sub)
    decreases |s|
  {
    assert !OccursAt(s, sub, 0);
    if |s| > 0 {
      forall j: nat
        ensures !OccursAt(s[1..], sub, j)
      {
        assert !OccursAt(s, sub, j + 1);
        if j + |sub| <= |s[1..]| {
          assert s[1..][j..j + |sub|] == s[j + 1..j + 1 + |sub|];
        }
      }
      NotContains(s[1..], sub);
    }
  }

  lemma BigintIsInt()
    ensures ParseColumnType("bigint(20)") == INT
  {
    var t := "bigint(20)";
    assert t[3..6] == "int";
    ContainsAt(t, "int", 3);
  }

  lemma PointIsInt()
    ensures ParseColumnType("point") == INT
  {
    var t := "point";
    assert t[2..5] == "int";
    ContainsAt(t, "int", 2);
  }

  lemma DecimalIsFloat()
    ensures ParseColumnType("decimal(10,2)") == FLOAT
  {
    var t := "decimal(10,2)";
    DecimalIsNotInt();
    assert t[0..3] == "dec";
    ContainsAt(t, "dec", 0);
  }

  lemma DecimalIsNotInt()
    ensures !Contains("decimal(10,2)", "int") && !Contains("decimal(10,2)", "bit")
  {
    var t := "decimal(10,2)";
    forall j: nat
      ensures !OccursAt(t, "int", j) && !OccursAt(t, "bit", j)
    {
      if j + 3 <= |t| {
        assert t[j..j + 3][0] == t[j] && t[j..j + 3][1] == t[j + 1];
      }
    }
    NotContains(t, "int");
    NotContains(t, "bit");
  }

  /** Upper-case type names are not recognised: "DOUBLE" is STRING. */
  lemma ParseColumnTypeCaseSensitive()
    ensures ParseColumnType("DOUBLE") == STRING
  {
    var t := "DOUBLE";
    forall j: nat
      ensures !OccursAt(t, "int", j) && !OccursAt(t, "bit", j) && !OccursAt(t, "dec", j)
      ensures !OccursAt(t, "float", j) && !OccursAt(t, "numeric", j) && !OccursAt(t, "double", j)
    {
      if j < |t| {
        assert 'A' <= t[j] <= 'Z';
      }
      if j + 3 <= |t| {
        assert t[j..j + 3][0] == t[j];
      }
      if j + 5 <= |t| {
        assert t[j..j + 5][0] == t[j];
      }
      if j + 6 <= |t| {
        assert t[j..j + 6][0] == t[j];
      }
    }
    NotContains(t, "int");
    NotContains(t, "bit");
    NotContains(t, "dec");
    NotContains(t, "float");
    NotContains(t, "numeric");
    NotContains(t, "double");
  }

  // ---------------------------------------------------------------------
  // The documented intent of the classification

  /** The base types of MySQL column types, as SHOW FULL COLUMNS spells
      them before any length, value list or attribute, in the five
      families of the column-type documentation. The enumeration is a
      selection: tinytext, mediumtext, tinyblob, mediumblob and the spatial
      types are left out (a spatial name such as "point" contains "int" and
      is INT by PointIsInt, with no documented class). */
  datatype IntegerKind = TinyInt | SmallInt | MediumInt | Int | Integer | BigInt | Bit
  datatype RealKind = Float | Double | Decimal | Numeric
  datatype TextKind = Char | Varchar | Text | LongText | Json | Enum | SetOf
  datatype BinaryKind = Blob | LongBlob | Binary | VarBinary
  datatype TemporalKind = Date | DateTime | Time | Timestamp | Year

  datatype BaseType =
    | IntegerType(i: IntegerKind)
    | RealType(r: RealKind)
    | TextType(x: TextKind)
    | BinaryType(y: BinaryKind)
    | TemporalType(z: TemporalKind)

  function IntegerName(k: IntegerKind): string
  {
    match k
    case TinyInt => "tinyint"
    case SmallInt => "smallint"
    case MediumInt => "mediumint"
    case Int => "int"
    case Integer => "integer"
    case BigInt => "bigint"
    case Bit => "bit"
  }

  function RealName(k: RealKind): string
  {
    match k
    case Float => "float"
    case Double => "double"
    case Decimal => "decimal"
    case Numeric => "numeric"
  }

  function TextName(k: TextKind): string
  {
    match k
    case Char => "char"
    case Varchar => "varchar"
    case Text => "text"
    case LongText => "longtext"
    case Json => "json"
    case Enum => "enum"
    case SetOf => "set"
  }

  function BinaryName(k: BinaryKind): string
  {
    match k
    case Blob => "blob"
    case LongBlob => "longblob"
    case Binary => "binary"
    case VarBinary => "varbinary"
  }

  function TemporalName(k: TemporalKind): string
  {
    match k
    case Date => "date"
    case DateTime => "datetime"
    case Time => "time"
    case Timestamp => "timestamp"
    case Year => "year"
  }

  function TypeName(t: BaseType): string
  {
    match t
    case IntegerType(k) => IntegerName(k)
    case RealType(k) => RealName(k)
    case TextType(k) => TextName(k)
    case BinaryType(k) => BinaryName(k)
    case TemporalType(k) => TemporalName(k)
  }

  /** The class the column-type documentation gives each family: integer
      types are INT; floating- and fixed-point numbers FLOAT; string, text,
      blob and date types STRING. BIT is counted with the integers because
      the classifier counts it so; the documentation does not class it. */
  function DocumentedClass(t: BaseType): ColumnType
  {
    match t
    case IntegerType(_) => INT
    case RealType(_) => FLOAT
    case _ => STRING
  }

  /** What may follow a base name: nothing, a parenthesised length or value
      list, or a space and attributes such as "unsigned". */
  predicate TypeSuffix(sfx: string)
  {
    sfx == [] || sfx[0] == '(' || sfx[0] == ' '
  }

  /** What a string contains, it still contains with text after it. */
  lemma {:induction false} ContainsExtend(s: string, sfx: string, tok: string)
    requires Contains(s, tok)
    ensures Contains(s + sfx, tok)
    decreases |s|
  {
    if StartsWith(s, tok) {
      assert (s + sfx)[..|tok|] == s[..|tok|];
    } else {
      assert (s + sfx)[1..] == s[1..] + sfx;
      ContainsExtend(s[1..], sfx, tok);
    }
  }

  /** A string lacking one of the characters of `tok` does not contain
      `tok`. */
  lemma MissingChar(s: string, tok: string, c: char)
    requires c in tok && c !in s
    ensures !Contains(s, tok)
  {
    forall j: nat
      ensures !OccursAt(s, tok, j)
    {
      if j + |tok| <= |s| {
        var k :| 0 <= k < |tok| && tok[k] == c;
        assert s[j..j + |tok|][k] == s[j + k];
      }
    }
    NotContains(s, tok);
  }

  /** A token without '(' or ' ' is not found in a base name followed by
      a suffix unless it is found in one of the two: the suffix starts with
      a character the token does not have. */
  lemma NoTokenAcross(b: string, sfx: string, tok: string)
    requires '(' !in tok && ' ' !in tok
    requires TypeSuffix(sfx)
    requires !Contains(b, tok) && !Contains(sfx, tok)
    ensures !Contains(b + sfx, tok)
  {
    var t := b + sfx;
    forall j: nat
      ensures !OccursAt(t, tok, j)
    {
      if OccursAt(t, tok, j) {
        if j + |tok| <= |b| {
          assert b[j..j + |tok|] == t[j..j + |tok|];
          ContainsAt(b, tok, j);
        } else if j >= |b| {
          assert sfx[j - |b|..j - |b| + |tok|] == t[j..j + |tok|];
          ContainsAt(sfx, tok, j - |b|);
        } else {
          StraddleChar(b, sfx, tok, j);
        }
      }
    }
    NotContains(t, tok);
  }

  /** An occurrence across the joint puts a character of the token on the
      suffix's first character. */
  lemma StraddleChar(b: string, sfx: string, tok: string, j: nat)
    requires OccursAt(b + sfx, tok, j) && j < |b| < j + |tok|
    ensures tok[|b| - j] == sfx[0]
  {
    assert (b + sfx)[j..j + |tok|][|b| - j] == (b + sfx)[|b|];
  }

  /** The tokens of the INT test and of the FLOAT test. */
  predicate HasIntToken(s: string)
  {
    Contains(s, "int") || Contains(s, "bit")
  }

  predicate HasFloatToken(s: string)
  {
    Contains(s, "float") || Contains(s, "dec") || Contains(s, "numeric") || Contains(s, "double")
  }

  /** `s` holds neither kind of token. */
  predicate NoToken(s: string)
  {
    !HasIntToken(s) && !HasFloatToken(s)
  }

  /** Neither kind of token appears across the joint of a base name and
      its suffix. */
  lemma IntTokensAcross(b: string, sfx: string)
    requires TypeSuffix(sfx) && !HasIntToken(b) && !HasIntToken(sfx)
    ensures !HasIntToken(b + sfx)
  {
    NoTokenAcross(b, sfx, "int");
    NoTokenAcross(b, sfx, "bit");
  }

  lemma FloatTokensAcross(b: string, sfx: string)
    requires TypeSuffix(sfx) && !HasFloatToken(b) && !HasFloatToken(sfx)
    ensures !HasFloatToken(b + sfx)
  {
    NoTokenAcross(b, sfx, "float");
    NoTokenAcross(b, sfx, "dec");
    NoTokenAcross(b, sfx, "numeric");
    NoTokenAcross(b, sfx, "double");
  }

  /** A token of either test found at a position. */
  lemma IntTokenAt(s: string, tok: string, k: nat)
    requires (tok == "int" || tok == "bit") && OccursAt(s, tok, k)
    ensures HasIntToken(s)
  {
    ContainsAt(s, tok, k);
  }

  lemma FloatTokenAt(s: string, tok: string)
    requires (tok == "float" || tok == "dec" || tok == "numeric" || tok == "double") && StartsWith(s, tok)
    ensures HasFloatToken(s)
  {
    ContainsAt(s, tok, 0);
  }

  /** A character common to "int" and "bit" that `s` lacks rules out both. */
  lemma NoIntTokenWithout(s: string, c: char)
    requires c in "int" && c in "bit" && c !in s
    ensures !HasIntToken(s)
  {
    MissingChar(s, "int", c);
    MissingChar(s, "bit", c);
  }

  /** Each integer type name holds an INT token. */
  lemma IntegerNameHasToken(k: IntegerKind)
    ensures HasIntToken(IntegerName(k))
  {
    match k
    case TinyInt => IntTokenAt(IntegerName(k), "int", 4);
    case SmallInt => IntTokenAt(IntegerName(k), "int", 5);
    case MediumInt => IntTokenAt(IntegerName(k), "int", 6);
    case Int => IntTokenAt(IntegerName(k), "int", 0);
    case Integer => IntTokenAt(IntegerName(k), "int", 0);
    case BigInt => IntTokenAt(IntegerName(k), "int", 3);
    case Bit => IntTokenAt(IntegerName(k), "bit", 0);
  }

  /** Each floating- or fixed-point type name holds no INT token ... */
  lemma RealNameHasNoIntToken(k: RealKind)
    ensures !HasIntToken(RealName(k))
  {
    match k
    case Float => NoIntTokenWithout(RealName(k), 'i');
    case Double => NoIntTokenWithout(RealName(k), 'i');
    case Decimal => NoIntTokenWithout(RealName(k), 't');
    case Numeric => NoIntTokenWithout(RealName(k), 't');
  }

  /** ... and starts with a FLOAT token. */
  lemma RealNameHasFloatToken(k: RealKind)
    ensures HasFloatToken(RealName(k))
  {
    match k
    case Float => FloatTokenAt(RealName(k), "float");
    case Double => FloatTokenAt(RealName(k), "double");
    case Decimal => FloatTokenAt(RealName(k), "dec");
    case Numeric => FloatTokenAt(RealName(k), "numeric");
  }

  /** A FLOAT token survives text after it. */
  lemma FloatTokenExtend(b: string, sfx: string)
    requires HasFloatToken(b)
    ensures HasFloatToken(b + sfx)
  {
    if Contains(b, "float") {
      ContainsExtend(b, sfx, "float");
    } else if Contains(b, "dec") {
      ContainsExtend(b, sfx, "dec");
    } else if Contains(b, "numeric") {
      ContainsExtend(b, sfx, "numeric");
    } else {
      ContainsExtend(b, sfx, "double");
    }
  }

  /** The three families of STRING names each lack four characters that
      between them meet all six tokens. */
  lemma TextLacksTokens(s: string)
    requires 'i' !in s && 'b' !in s && 'f' !in s && 'd' !in s
    ensures NoToken(s)
  {
    MissingChar(s, "int", 'i');
    MissingChar(s, "bit", 'b');
    MissingChar(s, "float", 'f');
    MissingChar(s, "dec", 'd');
    MissingChar(s, "numeric", 'i');
    MissingChar(s, "double", 'd');
  }

  lemma BinaryLacksTokens(s: string)
    requires 't' !in s && 'u' !in s && 'f' !in s && 'd' !in s
    ensures NoToken(s)
  {
    MissingChar(s, "int", 't');
    MissingChar(s, "bit", 't');
    MissingChar(s, "float", 'f');
    MissingChar(s, "dec", 'd');
    MissingChar(s, "numeric", 'u');
    MissingChar(s, "double", 'd');
  }

  lemma TemporalLacksTokens(s: string)
    requires 'n' !in s && 'b' !in s && 'f' !in s && 'c' !in s
    ensures NoToken(s)
  {
    MissingChar(s, "int", 'n');
    MissingChar(s, "bit", 'b');
    MissingChar(s, "float", 'f');
    MissingChar(s, "dec", 'c');
    MissingChar(s, "numeric", 'n');
    MissingChar(s, "double", 'b');
  }

  /** No string, text, blob or date type name holds a token. */
  lemma StringNameHasNoToken(t: BaseType)
    requires DocumentedClass(t) == STRING
    ensures NoToken(TypeName(t))
  {
    match t
    case TextType(k) => TextNameHasNoToken(k);
    case BinaryType(k) => BinaryNameHasNoToken(k);
    case TemporalType(k) => TemporalNameHasNoToken(k);
  }

  lemma TextNameHasNoToken(k: TextKind)
    ensures NoToken(TextName(k))
  {
    TextLacksTokens(TextName(k));
  }

  lemma BinaryNameHasNoToken(k: BinaryKind)
    ensures NoToken(BinaryName(k))
  {
    BinaryLacksTokens(BinaryName(k));
  }

  lemma TemporalNameHasNoToken(k: TemporalKind)
    ensures NoToken(TemporalName(k))
  {
    TemporalLacksTokens(TemporalName(k));
  }

  /** Every integer type, whatever follows it, is INT, as documented. */
  lemma IntegerTypesAreInt(t: BaseType, sfx: string)
    requires DocumentedClass(t) == INT
    ensures ParseColumnType(TypeName(t) + sfx) == INT
  {
    var b := TypeName(t);
    IntegerNameHasToken(t.i);
    if Contains(b, "int") {
      ContainsExtend(b, sfx, "int");
    } else {
      ContainsExtend(b, sfx, "bit");
    }
  }

  /** Every floating- or fixed-point type with a suffix that does not
      mention "int" or "bit" is FLOAT, as documented. */
  lemma FloatTypesAreFloat(t: BaseType, sfx: string)
    requires DocumentedClass(t) == FLOAT && TypeSuffix(sfx)
    requires !Contains(sfx, "int") && !Contains(sfx, "bit")
    ensures ParseColumnType(TypeName(t) + sfx) == FLOAT
  {
    var b := TypeName(t);
    RealNameHasNoIntToken(t.r);
    RealNameHasFloatToken(t.r);
    IntTokensAcross(b, sfx);
    FloatTokenExtend(b, sfx);
  }

  /** Every string, text, blob and date type with a suffix free of the six
      tokens is STRING, as documented. */
  lemma StringTypesAreString(t: BaseType, sfx: string)
    requires DocumentedClass(t) == STRING && TypeSuffix(sfx) && NoToken(sfx)
    ensures ParseColumnType(TypeName(t) + sfx) == STRING
  {
    var b := TypeName(t);
    StringNameHasNoToken(t);
    IntTokensAcross(b, sfx);
    FloatTokensAcross(b, sfx);
  }

  /** The three cases together: on a base type followed by a suffix that
      mentions none of the six tokens, the substring classifier gives the
      documented class. */
  lemma ClassifierFollowsDocumentation(t: BaseType, sfx: string)
    requires TypeSuffix(sfx) && NoToken(sfx)
    ensures ParseColumnType(TypeName(t) + sfx) == DocumentedClass(t)
  {
    match DocumentedClass(t)
    case INT => IntegerTypesAreInt(t, sfx);
    case FLOAT => FloatTypesAreFloat(t, sfx);
    case STRING => StringTypesAreString(t, sfx);
  }

  /** The substring test also looks inside the value list of an
      enumeration: "enum('print')" is INT, where the documentation makes
      every enumeration STRING. */
  lemma EnumValueDecidesClass()
    ensures ParseColumnType(TypeName(TextType(Enum)) + "('print')") == INT
    ensures DocumentedClass(TextType(Enum)) == STRING
  {
    var t := "enum('print')";
    assert TypeName(TextType(Enum)) + "('print')" == t;
    assert t[8..11] == "int";
    ContainsAt(t, "int", 8);
  }

  /** The base name of a column type: the text before the first '(' or
      ' ', that is, before any length, value list or attribute. */
  function BaseName(s: string): (b: string)
    ensures |b| <= |s| && b == s[..|b|]
    ensures '(' !in b && ' ' !in b
    ensures |b| < |s| ==> s[|b|] == '(' || s[|b|] == ' '
  {
    if s == [] || s[0] == '(' || s[0] == ' ' then []
    else [s[0]] + BaseName(s[1..])
  }

  /** The classification the documentation describes: the tests applied to
      the base name only, so that a value list or a default cannot change
      the class. */
  function ParseColumnTypeFixed(columnType: string): ColumnType
  {
    ParseColumnType(BaseName(columnType))
  }

  /** A name without delimiters followed by a suffix has that name as its
      base name. */
  lemma {:induction false} BaseNameOfSuffixed(b: string, sfx: string)
    requires '(' !in b && ' ' !in b && TypeSuffix(sfx)
    ensures BaseName(b + sfx) == b
    decreases |b|
  {
    if b != [] {
      assert (b + sfx)[0] == b[0];
      assert (b + sfx)[1..] == b[1..] + sfx;
      BaseNameOfSuffixed(b[1..], sfx);
    }
  }

  lemma NameHasNoDelimiter(t: BaseType)
    ensures '(' !in TypeName(t) && ' ' !in TypeName(t)
  {
    match t
    case IntegerType(k) => IntegerNameHasNoDelimiter(k);
    case RealType(k) => RealNameHasNoDelimiter(k);
    case TextType(k) => TextNameHasNoDelimiter(k);
    case BinaryType(k) => BinaryNameHasNoDelimiter(k);
    case TemporalType(k) => TemporalNameHasNoDelimiter(k);
  }

  lemma IntegerNameHasNoDelimiter(k: IntegerKind)
    ensures '(' !in IntegerName(k) && ' ' !in IntegerName(k)
  {
  }

  lemma RealNameHasNoDelimiter(k: RealKind)
    ensures '(' !in RealName(k) && ' ' !in RealName(k)
  {
  }

  lemma TextNameHasNoDelimiter(k: TextKind)
    ensures '(' !in TextName(k) && ' ' !in TextName(k)
  {
  }

  lemma BinaryNameHasNoDelimiter(k: BinaryKind)
    ensures '(' !in BinaryName(k) && ' ' !in BinaryName(k)
  {
  }

  lemma TemporalNameHasNoDelimiter(k: TemporalKind)
    ensures '(' !in TemporalName(k) && ' ' !in TemporalName(k)
  {
  }

  /** Every base type followed by any suffix gets its documented class from
      the corrected classifier: "enum('print')" is STRING. */
  lemma ClassifierFixedFollowsDocumentation(t: BaseType, sfx: string)
    requires TypeSuffix(sfx)
    ensures ParseColumnTypeFixed(TypeName(t) + sfx) == DocumentedClass(t)
  {
    NameHasNoDelimiter(t);
    BaseNameOfSuffixed(TypeName(t), sfx);
    TextLacksTokens([]);
    ClassifierFollowsDocumentation(t, []);
    assert TypeName(t) + [] == TypeName(t);
  }

  /** The DDL rewrites of get_create_database_sql and get_table_create_sql:
      only the first occurrence is rewritten. */
  function CreateDatabaseIfNotExists(sql: string): string
  {
    ReplaceFirst(sql, "CREATE DATABASE", "CREATE DATABASE IF NOT EXISTS")
  }

  function CreateTableIfNotExists(sql: string): string
  {
    ReplaceFirst(sql, "CREATE TABLE", "CREATE TABLE IF NOT EXISTS")
  }

  /** A table's DDL as the server reports it starts with "CREATE TABLE";
      the rewrite inserts " IF NOT EXISTS" after it and keeps the rest,
      including any later "CREATE TABLE" (in a comment, say). */
  lemma CreateTableRewrite(sql: string)
    requires StartsWith(sql, "CREATE TABLE")
    ensures CreateTableIfNotExists(sql) == "CREATE TABLE IF NOT EXISTS" + sql[12..]
  {
    ReplaceFirstMeaning(sql, "CREATE TABLE", "CREATE TABLE IF NOT EXISTS");
    assert OccursAt(sql, "CREATE TABLE", 0);
    assert sql[..0] == [];
  }

  lemma CreateDatabaseRewrite(sql: string)
    requires StartsWith(sql, "CREATE DATABASE")
    ensures CreateDatabaseIfNotExists(sql) == "CREATE DATABASE IF NOT EXISTS" + sql[15..]
  {
    ReplaceFirstMeaning(sql, "CREATE DATABASE", "CREATE DATABASE IF NOT EXISTS");
    assert OccursAt(sql, "CREATE DATABASE", 0);
    assert sql[..0] == [];
  }

  /** DDL without the phrase is left as it is. */
  lemma RewriteWithoutCreate(sql: string)
    requires !Contains(sql, "CREATE TABLE")
    ensures CreateTableIfNotExists(sql) == sql
  {
    ReplaceFirstMeaning(sql, "CREATE TABLE", "CREATE TABLE IF NOT EXISTS");
    if FindFirst(sql, "CREATE TABLE").Some? {
      ContainsAt(sql, "CREATE TABLE", FindFirst(sql, "CREATE TABLE").value);
    }
  }

  /** The Key column marks the primary key with "PRI"; the Null column marks
      a nullable column with "YES". */
  predicate IsPrimaryKey(key: string)
  {
    key == "PRI"
  }

  predicate IsNullable(null_: string)
  {
    null_ == "YES"
  }

  /** One row of SHOW FULL COLUMNS as get_table_columns turns it into a
      column: a NULL default becomes the empty string. */
  function ColumnFromRow(name: string, columnType: string, null_: string, key: string,
                         default_: Option<string>, comment: string): (c: ColumnInfo)
    ensures c.name == name && c.comment == comment
    ensures c.primaryKey <==> key == "PRI"
    ensures c.nullable <==> null_ == "YES"
    ensures c.type_ == ParseColumnType(columnType)
    ensures c.default_ == if default_.Some? then default_.value else ""
  {
    ColumnInfo(name, ParseColumnType(columnType), IsNullable(null_),
               match default_ case None => "" case Some(d) => d,
               comment, IsPrimaryKey(key))
  }
}
