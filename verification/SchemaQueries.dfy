/**
 The SQL that the schema browser prints for a table, and the proof that it agrees with the statement
 scanner: whatever the names are, every printed query is one terminated statement that still holds
 exactly those names.
 */
module SchemaQueries {
  import opened Options
  import opened SqlGrammar

  datatype InspectionQuery = InspectionQuery(name: string, sql: string)

  // ----- Printing -----

  function Replace(s: string, c: char, substitute: string): string {
    if s == "" then "" else (if s[0] == c then substitute else [s[0]]) + Replace(s[1..], c, substitute)
  }

  /** The sanitiser of the PostgreSQL client library drops NUL bytes from an identifier. */
  function StripNul(name: string): string {
    Replace(name, '\0', "")
  }

  function QuoteIdentifier(name: string): string {
    "\"" + Replace(StripNul(name), '"', "\"\"") + "\""
  }

  function Qualified(schema: string, table: string): string {
    QuoteIdentifier(schema) + "." + QuoteIdentifier(table)
  }

  function EscapeText(s: string): string {
    Replace(Replace(s, '\\', "\\\\"), '\'', "''")
  }

  function QuoteText(s: string): string {
    "'" + EscapeText(s) + "'"
  }

  const SELECT_ROWS := "SELECT * FROM "
  const LIMIT_ROWS := " LIMIT 100"
  const SELECT_COUNT := "SELECT count(*) FROM "
  const SIZE_OF := "SELECT pg_size_pretty("
  const OF_RELATION := "pg_total_relation_size(E"
  const SELECT_SIZE := SIZE_OF + OF_RELATION
  const SIZE_END := "::regclass))"
  const OF_LEAVES := "sum(pg_total_relation_size(relid)))"
  const FROM_TREE := " FROM pg_partition_tree(E"
  const SELECT_TREE := SIZE_OF + OF_LEAVES + FROM_TREE
  const TREE_END := "::regclass) WHERE isleaf"

  datatype RelationKind = Table | PartitionedTable | View | MaterializedView | ForeignTable

  function MakeSchemaInspectionQueries(schema: string, table: string, kind: RelationKind): seq<InspectionQuery> {
    var qualified := Qualified(schema, table);
    var regclass := QuoteText(qualified);
    var queries := [InspectionQuery("Preview rows", SELECT_ROWS + qualified + LIMIT_ROWS + ";"),
                    InspectionQuery("Exact row count", SELECT_COUNT + qualified + ";")];
    match kind
    case Table => queries + [InspectionQuery("Table size", SELECT_SIZE + regclass + SIZE_END + ";")]
    case MaterializedView => queries + [InspectionQuery("Table size", SELECT_SIZE + regclass + SIZE_END + ";")]
    case PartitionedTable => queries + [InspectionQuery("Partition tree size", SELECT_TREE + regclass + TREE_END + ";")]
    case _ => queries
  }

  // ----- Reading back -----

  /** Reads a doubled character as one. */
  function Collapse(s: string, c: char): string {
    if s == "" then ""
    else if PairAt(s, 0, c, c) then [c] + Collapse(s[2..], c)
    else [s[0]] + Collapse(s[1..], c)
  }

  /** Reads the inside of an escape string: a backslash or a first quote of two yields the byte after it. */
  function UnescapeText(s: string): string {
    if s == "" then ""
    else if |s| > 1 && (s[0] == '\\' || PairAt(s, 0, '\'', '\'')) then [s[1]] + UnescapeText(s[2..])
    else [s[0]] + UnescapeText(s[1..])
  }

  function Inside(text: string): string {
    if |text| < 2 then "" else text[1..|text| - 1]
  }

  /** The name that an identifier stands for. */
  function NameOf(l: Lexeme): seq<string> {
    if l.kind == Identifier then [Collapse(Inside(l.text), '"')] else []
  }

  /** The string that a quoted text stands for. */
  function StringOf(l: Lexeme): seq<string> {
    if l.kind == Text then [UnescapeText(Inside(l.text))] else []
  }

  function Readings(f: Lexeme -> seq<string>, ls: seq<Lexeme>): seq<string> {
    if ls == [] then [] else f(ls[0]) + Readings(f, ls[1..])
  }

  function Names(ls: seq<Lexeme>): seq<string> {
    Readings(NameOf, ls)
  }

  function Strings(ls: seq<Lexeme>): seq<string> {
    Readings(StringOf, ls)
  }

  function NamesIn(sql: string): Option<seq<string>> {
    match Lex(sql) case None => None case Some(ls) => Some(Names(ls))
  }

  function StringsIn(sql: string): Option<seq<string>> {
    match Lex(sql) case None => None case Some(ls) => Some(Strings(ls))
  }

  lemma {:induction false} ReplaceConcat(a: string, b: string, c: char, substitute: string)
    ensures Replace(a + b, c, substitute) == Replace(a, c, substitute) + Replace(b, c, substitute)
  {
    if a == "" {
      assert a + b == b && "" + Replace(b, c, substitute) == Replace(b, c, substitute);
    } else {
      ReplaceConcat(a[1..], b, c, substitute);
      assert (a + b)[1..] == a[1..] + b;
      var head := if a[0] == c then substitute else [a[0]];
      var left, right := Replace(a[1..], c, substitute), Replace(b, c, substitute);
      assert head + (left + right) == (head + left) + right;
    }
  }

  lemma {:induction false} CollapseUndoesDoubling(s: string, c: char)
    ensures Collapse(Replace(s, c, [c, c]), c) == s
  {
    if s != "" {
      CollapseUndoesDoubling(s[1..], c);
      var rest := Replace(s[1..], c, [c, c]);
      if s[0] == c {
        assert ([c, c] + rest)[2..] == rest;
      } else {
        assert ([s[0]] + rest)[1..] == rest;
      }
    }
  }

  function Escaped(c: char): string {
    if c == '\\' then "\\\\" else if c == '\'' then "''" else [c]
  }

  lemma EscapeStep(s: string)
    requires s != ""
    ensures EscapeText(s) == Escaped(s[0]) + EscapeText(s[1..])
  {
    var first := if s[0] == '\\' then "\\\\" else [s[0]];
    ReplaceConcat(first, Replace(s[1..], '\\', "\\\\"), '\'', "''");
    assert first[1..] == if s[0] == '\\' then "\\" else "";
    if s[0] == '\\' {
      assert "\\"[1..] == "" && "\\" + "\\" == "\\\\";
      assert Replace("\\", '\'', "''") == "\\";
    }
  }

  lemma UnescapeOne(c: char, rest: string)
    ensures UnescapeText(Escaped(c) + rest) == [c] + UnescapeText(rest)
  {
    var text := Escaped(c) + rest;
    assert text[|Escaped(c)|..] == rest;
    if |Escaped(c)| > 1 {
      assert text[1] == c;
    }
  }

  lemma {:induction false} UnescapeUndoesEscape(s: string)
    ensures UnescapeText(EscapeText(s)) == s
  {
    if s != "" {
      EscapeStep(s);
      UnescapeOne(s[0], EscapeText(s[1..]));
      UnescapeUndoesEscape(s[1..]);
    }
  }

  /** Stripping leaves a name as it is exactly when the name holds no NUL byte. */
  lemma {:induction false} StripNulKeeps(name: string)
    ensures |StripNul(name)| <= |name|
    ensures StripNul(name) == name <==> '\0' !in name
  {
    if name != "" {
      StripNulKeeps(name[1..]);
      assert name == [name[0]] + name[1..];
      if name[0] == '\0' {
        assert StripNul(name) == StripNul(name[1..]);
      } else if StripNul(name) == name {
        assert StripNul(name)[1..] == name[1..];
      }
    }
  }

  // ----- The scanner on what is printed -----

  lemma HasParts(q: string, i: nat, p: string, r: string)
    requires HasAt(q, i, p + r)
    ensures HasAt(q, i, p) && HasAt(q, i + |p|, r)
  {
    assert forall k | 0 <= k < |p| :: p[k] == (p + r)[k];
    assert forall k | 0 <= k < |r| :: r[k] == (p + r)[|p| + k];
  }

  /** A part that spans one lexeme is that lexeme. */
  lemma LexOne(q: string, i: nat, kind: Kind, part: string)
    requires i < |q| && HasAt(q, i, part) && KindAt(q, i) == kind && EndAt(q, i) == Some(i + |part|)
    ensures LexFrom(q, i) == Append([Lexeme(kind, part)], LexFrom(q, i + |part|))
  {
    assert q[i..i + |part|] == part;
  }

  predicate IsPlain(c: char) {
    c !in {'-', '/', '\'', '"', '$', ';'}
  }

  predicate AllPlain(p: string) {
    forall k | 0 <= k < |p| :: IsPlain(p[k])
  }

  lemma ConstantsArePlain()
    ensures AllPlain(SELECT_ROWS) && AllPlain(LIMIT_ROWS) && AllPlain(SELECT_COUNT) && AllPlain(SIZE_END)
        && AllPlain(TREE_END)
  {
  }

  lemma SizePartsArePlain()
    ensures AllPlain(SIZE_OF) && AllPlain(OF_RELATION)
  {
  }

  lemma LeavesArePlain()
    ensures AllPlain(OF_LEAVES)
  {
  }

  lemma TreeIsPlain()
    ensures AllPlain(FROM_TREE)
  {
  }

  lemma PlainConcat(a: string, b: string)
    requires AllPlain(a) && AllPlain(b)
    ensures AllPlain(a + b)
  {
  }

  lemma LongConstantsArePlain()
    ensures AllPlain(SELECT_SIZE) && AllPlain(SELECT_TREE)
  {
    SizePartsArePlain();
    LeavesArePlain();
    TreeIsPlain();
    PlainConcat(SIZE_OF, OF_RELATION);
    PlainConcat(SIZE_OF, OF_LEAVES);
    PlainConcat(SIZE_OF + OF_LEAVES, FROM_TREE);
  }

  lemma LongConstantsEndInE()
    ensures EndsInE(SELECT_SIZE) && EndsInE(SELECT_TREE)
  {
    assert EndsInE(OF_RELATION) && EndsInE(FROM_TREE);
  }

  function Single(c: char): Lexeme {
    Lexeme(if IsSpace(c) then Blank else Symbol, [c])
  }

  function Singles(p: string): seq<Lexeme> {
    seq(|p|, k requires 0 <= k < |p| => Single(p[k]))
  }

  lemma LexOnePlain(q: string, i: nat)
    requires i < |q| && IsPlain(q[i])
    ensures LexFrom(q, i) == Append([Single(q[i])], LexFrom(q, i + 1))
  {
    assert q[i..i + 1] == [q[i]];
  }

  lemma SinglesStep(p: string)
    requires p != ""
    ensures [Single(p[0])] + Singles(p[1..]) == Singles(p)
  {
  }

  lemma AppendNothing(r: Option<seq<Lexeme>>)
    ensures r == Append([], r)
  {
    if r.Some? {
      assert [] + r.value == r.value;
    }
  }

  /** Plain bytes are lexemes of their own. */
  lemma {:induction false} LexPlain(q: string, i: nat, p: string)
    requires HasAt(q, i, p) && AllPlain(p)
    ensures LexFrom(q, i) == Append(Singles(p), LexFrom(q, i + |p|))
    decreases p
  {
    if p == "" {
      AppendNothing(LexFrom(q, i));
      assert Singles(p) == [];
    } else {
      HasStep(q, i, p);
      LexOnePlain(q, i);
      LexPlain(q, i + 1, p[1..]);
      AppendTwice([Single(p[0])], Singles(p[1..]), LexFrom(q, i + |p|));
      SinglesStep(p);
    }
  }

  lemma HasStep(q: string, i: nat, p: string)
    requires HasAt(q, i, p) && p != ""
    ensures q[i] == p[0] && HasAt(q, i + 1, p[1..])
  {
    assert p == [p[0]] + p[1..];
    HasParts(q, i, [p[0]], p[1..]);
  }

  lemma {:induction false} IdentifierBodyEnds(q: string, i: nat, s: string)
    requires var body := Replace(s, '"', "\"\"") + "\"";
             HasAt(q, i, body) && (i + |body| < |q| ==> q[i + |body|] != '"')
    ensures IdentifierEnd(q, i) == Some(i + |Replace(s, '"', "\"\"")| + 1)
    decreases s
  {
    var body := Replace(s, '"', "\"\"") + "\"";
    if s == "" {
      assert q[i] == body[0];
    } else {
      var head := if s[0] == '"' then "\"\"" else [s[0]];
      var rest := Replace(s[1..], '"', "\"\"") + "\"";
      assert body == head + rest;
      HasParts(q, i, head, rest);
      assert q[i] == head[0] && (|head| > 1 ==> q[i + 1] == head[1]);
      IdentifierBodyEnds(q, i + |head|, s[1..]);
    }
  }

  lemma LexIdentifier(q: string, i: nat, name: string)
    requires var quoted := QuoteIdentifier(name);
             HasAt(q, i, quoted) && (i + |quoted| < |q| ==> q[i + |quoted|] != '"')
    ensures var quoted := QuoteIdentifier(name);
            LexFrom(q, i) == Append([Lexeme(Identifier, quoted)], LexFrom(q, i + |quoted|))
  {
    var quoted := QuoteIdentifier(name);
    var body := Replace(StripNul(name), '"', "\"\"") + "\"";
    assert quoted == "\"" + body;
    HasParts(q, i, "\"", body);
    assert q[i] == "\""[0];
    IdentifierBodyEnds(q, i + 1, StripNul(name));
    LexOne(q, i, Identifier, quoted);
  }

  lemma {:induction false} TextBodyEnds(q: string, i: nat, s: string)
    requires var body := EscapeText(s) + "'";
             HasAt(q, i, body) && (i + |body| < |q| ==> q[i + |body|] != '\'')
    ensures TextEnd(q, i) == Some(i + |EscapeText(s)| + 1)
    decreases s
  {
    var body := EscapeText(s) + "'";
    if s == "" {
      assert EscapeText(s) == "" && q[i] == body[0];
    } else {
      EscapeStep(s);
      var head := Escaped(s[0]);
      var rest := EscapeText(s[1..]) + "'";
      assert body == head + rest;
      HasParts(q, i, head, rest);
      assert q[i] == head[0] && (|head| > 1 ==> q[i + 1] == head[1]);
      TextBodyEnds(q, i + |head|, s[1..]);
    }
  }

  lemma LexText(q: string, i: nat, s: string)
    requires HasAt(q, i, QuoteText(s)) && (i + |QuoteText(s)| < |q| ==> q[i + |QuoteText(s)|] != '\'')
    ensures LexFrom(q, i) == Append([Lexeme(Text, QuoteText(s))], LexFrom(q, i + |QuoteText(s)|))
  {
    var body := EscapeText(s) + "'";
    assert QuoteText(s) == "'" + body;
    HasParts(q, i, "'", body);
    assert q[i] == "'"[0];
    TextBodyEnds(q, i + 1, s);
    LexOne(q, i, Text, QuoteText(s));
  }

  // ----- One terminated statement, holding the names it was printed for -----

  /** A single statement, ended by the only semicolon in it. */
  predicate OneTerminatedStatement(ls: seq<Lexeme>) {
    && ls != [] && ls[|ls| - 1] == SEMICOLON && HasToken(ls[..|ls| - 1])
    && forall l | l in ls[..|ls| - 1] :: l.kind != Semicolon
  }

  lemma {:induction false} OnePiece(ls: seq<Lexeme>)
    requires forall l | l in ls :: l.kind != Semicolon
    ensures Pieces(ls) == [ls]
  {
    if ls != [] {
      OnePiece(ls[1..]);
      assert [ls[0]] + ls[1..] == ls;
    }
  }

  lemma OneTerminatedIsOne(ls: seq<Lexeme>)
    requires OneTerminatedStatement(ls)
    ensures Statements(ls) == 1
  {
    var body := ls[..|ls| - 1];
    OnePiece(body);
    StatementsSplit(body, SEMICOLON, []);
    assert body + [SEMICOLON] + [] == ls;
    assert [body][1..] == [];
    assert !HasToken([]);
  }

  lemma {:induction false} ReadingsConcat(f: Lexeme -> seq<string>, a: seq<Lexeme>, b: seq<Lexeme>)
    ensures Readings(f, a + b) == Readings(f, a) + Readings(f, b)
  {
    if a == [] {
      assert a + b == b;
    } else {
      ReadingsConcat(f, a[1..], b);
      assert (a + b)[1..] == a[1..] + b;
      assert f(a[0]) + (Readings(f, a[1..]) + Readings(f, b)) == f(a[0]) + Readings(f, a[1..]) + Readings(f, b);
    }
  }

  lemma {:induction false} NothingRead(f: Lexeme -> seq<string>, ls: seq<Lexeme>)
    requires forall l | l in ls :: f(l) == []
    ensures Readings(f, ls) == []
  {
    if ls != [] {
      NothingRead(f, ls[1..]);
    }
  }

  lemma OneRead(f: Lexeme -> seq<string>, l: Lexeme)
    ensures Readings(f, [l]) == f(l)
  {
    assert [l][1..] == [] && f(l) + [] == f(l);
  }

  /** Nothing but the quoted part of a printed query is read back. */
  lemma FrameReadsNothing(f: Lexeme -> seq<string>, b: seq<Lexeme>, middle: seq<Lexeme>, a: seq<Lexeme>)
    requires (forall l | l in b :: f(l) == []) && forall l | l in a :: f(l) == []
    ensures Readings(f, b + middle + a) == Readings(f, middle)
  {
    NothingRead(f, b);
    NothingRead(f, a);
    ReadingsConcat(f, b + middle, a);
    ReadingsConcat(f, b, middle);
  }

  lemma IdentifierReadsBack(name: string)
    ensures NameOf(Lexeme(Identifier, QuoteIdentifier(name))) == [StripNul(name)]
  {
    assert Inside(QuoteIdentifier(name)) == Replace(StripNul(name), '"', "\"\"");
    CollapseUndoesDoubling(StripNul(name), '"');
  }

  lemma TextReadsBack(s: string)
    ensures StringOf(Lexeme(Text, QuoteText(s))) == [s]
  {
    assert Inside(QuoteText(s)) == EscapeText(s);
    UnescapeUndoesEscape(s);
  }

  function QualifiedLexemes(schema: string, table: string): seq<Lexeme> {
    [Lexeme(Identifier, QuoteIdentifier(schema))] + [Lexeme(Symbol, ".")] + [Lexeme(Identifier, QuoteIdentifier(table))]
  }

  lemma QualifiedReadsBack(schema: string, table: string)
    ensures Names(QualifiedLexemes(schema, table)) == [StripNul(schema), StripNul(table)]
    ensures Strings(QualifiedLexemes(schema, table)) == []
  {
    var ls := QualifiedLexemes(schema, table);
    NothingRead(StringOf, ls);
    assert ls == [ls[0]] + ([ls[1]] + [ls[2]]);
    ReadingsConcat(NameOf, [ls[0]], [ls[1]] + [ls[2]]);
    ReadingsConcat(NameOf, [ls[1]], [ls[2]]);
    OneRead(NameOf, ls[0]);
    OneRead(NameOf, ls[1]);
    OneRead(NameOf, ls[2]);
    IdentifierReadsBack(schema);
    IdentifierReadsBack(table);
  }

  lemma QualifiedKinds(schema: string, table: string)
    ensures var ls := QualifiedLexemes(schema, table);
            ls != [] && IsToken(ls[0]) && forall l | l in ls :: l.kind != Semicolon && l.kind != Text
  {
  }

  lemma QualifiedParts(q: string, i: nat, schema: string, table: string)
    requires HasAt(q, i, Qualified(schema, table))
    ensures var n := i + |QuoteIdentifier(schema)|;
            && HasAt(q, i, QuoteIdentifier(schema)) && HasAt(q, n, ".") && HasAt(q, n + 1, QuoteIdentifier(table))
            && q[n] == '.' && i + |Qualified(schema, table)| == n + 1 + |QuoteIdentifier(table)|
  {
    var s, t := QuoteIdentifier(schema), QuoteIdentifier(table);
    assert Qualified(schema, table) == s + ("." + t);
    HasParts(q, i, s, "." + t);
    HasParts(q, i + |s|, ".", t);
    assert q[i + |s|] == "."[0];
  }

  lemma LexDot(q: string, i: nat)
    requires i < |q| && q[i] == '.'
    ensures LexFrom(q, i) == Append([Lexeme(Symbol, ".")], LexFrom(q, i + 1))
  {
    assert q[i..i + 1] == ".";
  }

  lemma LexTableName(q: string, n: nat, table: string)
    requires n < |q| && q[n] == '.' && HasAt(q, n + 1, QuoteIdentifier(table))
    requires var m := n + 1 + |QuoteIdentifier(table)|; m < |q| ==> q[m] != '"'
    ensures var m := n + 1 + |QuoteIdentifier(table)|;
            LexFrom(q, n) == Append([Lexeme(Symbol, "."), Lexeme(Identifier, QuoteIdentifier(table))], LexFrom(q, m))
  {
    var m := n + 1 + |QuoteIdentifier(table)|;
    LexDot(q, n);
    LexIdentifier(q, n + 1, table);
    AppendTwice([Lexeme(Symbol, ".")], [Lexeme(Identifier, QuoteIdentifier(table))], LexFrom(q, m));
    assert [Lexeme(Symbol, ".")] + [Lexeme(Identifier, QuoteIdentifier(table))]
        == [Lexeme(Symbol, "."), Lexeme(Identifier, QuoteIdentifier(table))];
  }

  lemma LexQualified(q: string, i: nat, schema: string, table: string)
    requires var qualified := Qualified(schema, table);
             HasAt(q, i, qualified) && (i + |qualified| < |q| ==> q[i + |qualified|] != '"')
    ensures LexFrom(q, i) == Append(QualifiedLexemes(schema, table), LexFrom(q, i + |Qualified(schema, table)|))
  {
    QualifiedParts(q, i, schema, table);
    var n := i + |QuoteIdentifier(schema)|;
    LexIdentifier(q, i, schema);
    LexTableName(q, n, table);
    AppendTwice([Lexeme(Identifier, QuoteIdentifier(schema))],
                [Lexeme(Symbol, "."), Lexeme(Identifier, QuoteIdentifier(table))],
                LexFrom(q, n + 1 + |QuoteIdentifier(table)|));
    QualifiedLexemesParts(schema, table);
  }

  lemma QualifiedLexemesParts(schema: string, table: string)
    ensures [Lexeme(Identifier, QuoteIdentifier(schema))]
            + [Lexeme(Symbol, "."), Lexeme(Identifier, QuoteIdentifier(table))] == QualifiedLexemes(schema, table)
  {
  }

  /** How a printed query is put together: plain bytes, what is quoted, plain bytes, a semicolon. */
  predicate IsPrinted(q: string, before: string, quoted: string, after: string) {
    && HasAt(q, 0, before) && HasAt(q, |before|, quoted) && HasAt(q, |before| + |quoted|, after)
    && |q| == |before| + |quoted| + |after| + 1 && q[|before| + |quoted| + |after|] == ';'
    && q[|before| + |quoted|] == (if after == "" then ';' else after[0])
    && AllPlain(before) && AllPlain(after)
  }

  lemma PrintedParts(before: string, quoted: string, after: string)
    requires AllPlain(before) && AllPlain(after)
    ensures IsPrinted(before + quoted + after + ";", before, quoted, after)
  {
  }

  lemma LexEnding(q: string, i: nat, after: string)
    requires HasAt(q, i, after) && AllPlain(after) && |q| == i + |after| + 1 && q[i + |after|] == ';'
    ensures LexFrom(q, i) == Some(Singles(after) + [SEMICOLON])
  {
    LexPlain(q, i, after);
    LexSemicolon(q, i + |after|);
    assert [SEMICOLON] + [] == [SEMICOLON];
  }

  lemma Regrouped(a: seq<Lexeme>, b: seq<Lexeme>, c: seq<Lexeme>, d: seq<Lexeme>)
    ensures a + (b + (c + d)) == a + b + c + d
  {
  }

  lemma LexPrinted(q: string, before: string, quoted: string, middle: seq<Lexeme>, after: string)
    requires IsPrinted(q, before, quoted, after)
    requires LexFrom(q, |before|) == Append(middle, LexFrom(q, |before| + |quoted|))
    ensures Lex(q) == Some(Singles(before) + middle + Singles(after) + [SEMICOLON])
  {
    LexPlain(q, 0, before);
    LexEnding(q, |before| + |quoted|, after);
    var b, a := Singles(before), Singles(after);
    Regrouped(b, middle, a, [SEMICOLON]);
  }

  lemma PrintedIsTerminated(before: string, middle: seq<Lexeme>, after: string)
    requires middle != [] && IsToken(middle[0]) && forall l | l in middle :: l.kind != Semicolon
    requires AllPlain(before) && AllPlain(after)
    ensures var ls := Singles(before) + middle + Singles(after) + [SEMICOLON];
            OneTerminatedStatement(ls) && Statements(ls) == 1
  {
    var b, a := Singles(before), Singles(after);
    var body := b + middle + a;
    var ls := body + [SEMICOLON];
    assert ls[..|ls| - 1] == body && body[|b|] == middle[0];
    assert forall l | l in b :: l.kind != Semicolon;
    assert forall l | l in a :: l.kind != Semicolon;
    OneTerminatedIsOne(ls);
  }

  lemma PrintedReadsBack(before: string, middle: seq<Lexeme>, after: string)
    ensures var ls := Singles(before) + middle + Singles(after) + [SEMICOLON];
            Names(ls) == Names(middle) && Strings(ls) == Strings(middle)
  {
    var b, a := Singles(before), Singles(after) + [SEMICOLON];
    FrameReadsNothing(NameOf, b, middle, a);
    FrameReadsNothing(StringOf, b, middle, a);
    assert b + middle + Singles(after) + [SEMICOLON] == b + middle + a;
  }

  /** Every quoted text is written as an escape string, in which a backslash means what the printer takes it for. */
  predicate Marked(ls: seq<Lexeme>) {
    forall k | 0 <= k < |ls| && ls[k].kind == Text :: k > 0 && ls[k - 1] == Lexeme(Symbol, "E")
  }

  predicate EndsInE(before: string) {
    before != "" && before[|before| - 1] == 'E'
  }

  lemma PrintedIsMarked(before: string, middle: seq<Lexeme>, after: string)
    requires (forall l | l in middle :: l.kind != Text) || (|middle| == 1 && EndsInE(before))
    ensures Marked(Singles(before) + middle + Singles(after) + [SEMICOLON])
  {
    var b, a := Singles(before), Singles(after);
    var ls := b + middle + a + [SEMICOLON];
    forall k | 0 <= k < |ls| && ls[k].kind == Text ensures k > 0 && ls[k - 1] == Lexeme(Symbol, "E") {
      assert |b| <= k < |b| + |middle| && ls[k] == middle[k - |b|];
      assert middle[k - |b|] in middle;
    }
  }

  /** What a printed query holds: one terminated statement, these names and these strings. */
  predicate Prints(sql: string, names: seq<string>, strings: seq<string>) {
    match Lex(sql)
    case None => false
    case Some(ls) =>
      && OneTerminatedStatement(ls) && Statements(ls) == 1 && Marked(ls)
      && Names(ls) == names && Strings(ls) == strings
  }

  lemma NamesQuery(q: string, before: string, schema: string, table: string, after: string)
    requires IsPrinted(q, before, Qualified(schema, table), after)
    ensures Prints(q, [StripNul(schema), StripNul(table)], [])
  {
    hide OneTerminatedStatement, Marked, Statements, Names, Strings;
    var middle := QualifiedLexemes(schema, table);
    LexQualified(q, |before|, schema, table);
    QualifiedKinds(schema, table);
    LexPrinted(q, before, Qualified(schema, table), middle, after);
    PrintedIsTerminated(before, middle, after);
    PrintedIsMarked(before, middle, after);
    PrintedReadsBack(before, middle, after);
    QualifiedReadsBack(schema, table);
  }

  lemma StringQuery(q: string, before: string, s: string, after: string)
    requires IsPrinted(q, before, QuoteText(s), after) && after != "" && after[0] != '\'' && EndsInE(before)
    ensures Prints(q, [], [s])
  {
    var middle := [Lexeme(Text, QuoteText(s))];
    LexText(q, |before|, s);
    LexPrinted(q, before, QuoteText(s), middle, after);
    PrintedIsTerminated(before, middle, after);
    PrintedIsMarked(before, middle, after);
    PrintedReadsBack(before, middle, after);
    OneRead(StringOf, middle[0]);
    OneRead(NameOf, middle[0]);
    TextReadsBack(s);
  }

  /** Read as SQL of its own, a qualified name stands for its schema and its table. */
  lemma QualifiedStandsForNames(schema: string, table: string)
    ensures NamesIn(Qualified(schema, table)) == Some([StripNul(schema), StripNul(table)])
  {
    var q := Qualified(schema, table);
    LexQualified(q, 0, schema, table);
    var ls := QualifiedLexemes(schema, table);
    assert ls + [] == ls;
    QualifiedReadsBack(schema, table);
  }

  /** The relations that have storage to measure. */
  predicate Measured(kind: RelationKind) {
    kind in {Table, MaterializedView, PartitionedTable}
  }

  lemma FirstQueries(schema: string, table: string)
    ensures Prints(SELECT_ROWS + Qualified(schema, table) + LIMIT_ROWS + ";", [StripNul(schema), StripNul(table)], [])
    ensures Prints(SELECT_COUNT + Qualified(schema, table) + ";", [StripNul(schema), StripNul(table)], [])
  {
    ConstantsArePlain();
    var qualified := Qualified(schema, table);
    PrintedParts(SELECT_ROWS, qualified, LIMIT_ROWS);
    NamesQuery(SELECT_ROWS + qualified + LIMIT_ROWS + ";", SELECT_ROWS, schema, table, LIMIT_ROWS);
    PrintedParts(SELECT_COUNT, qualified, "");
    assert SELECT_COUNT + qualified + "" == SELECT_COUNT + qualified;
    NamesQuery(SELECT_COUNT + qualified + ";", SELECT_COUNT, schema, table, "");
  }

  function SizeQuery(qualified: string, kind: RelationKind): string {
    if kind == PartitionedTable then SELECT_TREE + QuoteText(qualified) + TREE_END + ";"
    else SELECT_SIZE + QuoteText(qualified) + SIZE_END + ";"
  }

  lemma SizeQueries(qualified: string, kind: RelationKind)
    ensures Prints(SizeQuery(qualified, kind), [], [qualified])
  {
    ConstantsArePlain();
    LongConstantsArePlain();
    LongConstantsEndInE();
    PrintedParts(SELECT_SIZE, QuoteText(qualified), SIZE_END);
    StringQuery(SELECT_SIZE + QuoteText(qualified) + SIZE_END + ";", SELECT_SIZE, qualified, SIZE_END);
    PrintedParts(SELECT_TREE, QuoteText(qualified), TREE_END);
    StringQuery(SELECT_TREE + QuoteText(qualified) + TREE_END + ";", SELECT_TREE, qualified, TREE_END);
  }

  /** A query of this name that begins and ends with these words. */
  predicate Worded(q: InspectionQuery, name: string, before: string, after: string) {
    && q.name == name && |before| + |after| <= |q.sql|
    && q.sql[..|before|] == before && q.sql[|q.sql| - |after|..] == after
  }

  lemma WordsPrinted(name: string, before: string, quoted: string, after: string)
    ensures Worded(InspectionQuery(name, before + quoted + after), name, before, after)
  {
  }

  lemma WordsTerminated(name: string, before: string, quoted: string, after: string)
    ensures Worded(InspectionQuery(name, before + quoted + after + ";"), name, before, after + ";")
  {
    WordsPrinted(name, before, quoted, after + ";");
    assert before + quoted + after + ";" == before + quoted + (after + ";");
  }

  lemma QueryWords(schema: string, table: string, kind: RelationKind)
    ensures var qs := MakeSchemaInspectionQueries(schema, table, kind);
            && |qs| >= 2 && Worded(qs[0], "Preview rows", SELECT_ROWS, LIMIT_ROWS + ";")
            && Worded(qs[1], "Exact row count", SELECT_COUNT, ";")
            && (kind in {Table, MaterializedView} ==>
                  |qs| == 3 && Worded(qs[2], "Table size", SELECT_SIZE, SIZE_END + ";"))
            && (kind == PartitionedTable ==>
                  |qs| == 3 && Worded(qs[2], "Partition tree size", SELECT_TREE, TREE_END + ";"))
  {
    var qualified := Qualified(schema, table);
    hide Worded;
    WordsTerminated("Preview rows", SELECT_ROWS, qualified, LIMIT_ROWS);
    WordsPrinted("Exact row count", SELECT_COUNT, qualified, ";");
    WordsTerminated("Table size", SELECT_SIZE, QuoteText(qualified), SIZE_END);
    WordsTerminated("Partition tree size", SELECT_TREE, QuoteText(qualified), TREE_END);
  }

  lemma QueryTexts(schema: string, table: string, kind: RelationKind)
    ensures var qs, qualified := MakeSchemaInspectionQueries(schema, table, kind), Qualified(schema, table);
            && |qs| == (if Measured(kind) then 3 else 2)
            && qs[0].sql == SELECT_ROWS + qualified + LIMIT_ROWS + ";"
            && qs[1].sql == SELECT_COUNT + qualified + ";"
            && (Measured(kind) ==> qs[2].sql == SizeQuery(qualified, kind))
  {
  }

  /**
   Whatever the names and the kind, every printed query scans as one terminated statement: those that
   name the relation hold its two names, and the one that measures it holds one string, which is the
   qualified name, written as an escape string.  Each goes by the name that says what it asks for.
   */
  lemma PrinterAgreesWithScanner(schema: string, table: string, kind: RelationKind)
    ensures var qs := MakeSchemaInspectionQueries(schema, table, kind);
            && |qs| == (if Measured(kind) then 3 else 2)
            && Prints(qs[0].sql, [StripNul(schema), StripNul(table)], [])
            && Prints(qs[1].sql, [StripNul(schema), StripNul(table)], [])
            && (Measured(kind) ==> Prints(qs[2].sql, [], [Qualified(schema, table)]))
            && Worded(qs[0], "Preview rows", SELECT_ROWS, LIMIT_ROWS + ";")
            && Worded(qs[1], "Exact row count", SELECT_COUNT, ";")
            && (kind in {Table, MaterializedView} ==> Worded(qs[2], "Table size", SELECT_SIZE, SIZE_END + ";"))
            && (kind == PartitionedTable ==> Worded(qs[2], "Partition tree size", SELECT_TREE, TREE_END + ";"))
  {
    QueryWords(schema, table, kind);
    FirstQueries(schema, table);
    SizeQueries(Qualified(schema, table), kind);
    QueryTexts(schema, table, kind);
  }

  /** The two names that a measuring query was printed for, recovered from its text alone. */
  function RecoverNames(sql: string): Option<seq<string>> {
    match StringsIn(sql)
    case None => None
    case Some(strings) => if |strings| == 1 then NamesIn(strings[0]) else None
  }

  /** Undoing both layers of quoting gives back exactly the two names if and only if neither holds a NUL byte. */
  lemma SizeQueryRoundTrip(schema: string, table: string, kind: RelationKind)
    requires Measured(kind)
    ensures var sql := MakeSchemaInspectionQueries(schema, table, kind)[2].sql;
            RecoverNames(sql) == Some([schema, table]) <==> '\0' !in schema && '\0' !in table
  {
    hide OneTerminatedStatement, Marked, Worded;
    PrinterAgreesWithScanner(schema, table, kind);
    QualifiedStandsForNames(schema, table);
    StripNulKeeps(schema);
    StripNulKeeps(table);
    var names := [StripNul(schema), StripNul(table)];
    assert names == [schema, table] <==> names[0] == schema && names[1] == table;
  }
}
