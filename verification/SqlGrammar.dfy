/**
 The lexical grammar that the SQL statement scanner recognises, written as functions of the text still
 to be read.  A character stands for one byte.  Block comments do not nest and a backslash escapes the
 next byte inside every single-quoted string: this is the scanner's own grammar, not PostgreSQL's.
 */
module SqlGrammar {
  import opened Options

  datatype Kind = LineComment | BlockComment | Text | Identifier | DollarText | Semicolon | Blank | Symbol

  datatype Lexeme = Lexeme(kind: Kind, text: string)

  /** The bytes that `unicode.IsSpace` accepts when each byte is read as a code point of its own. */
  predicate IsSpace(c: char) {
    c == ' ' || '\t' <= c <= '\r' || c == '\U{85}' || c == '\U{A0}'
  }

  predicate IsTagChar(c: char) {
    c == '_' || '0' <= c <= '9' || 'A' <= c <= 'Z' || 'a' <= c <= 'z'
  }

  predicate PairAt(q: string, i: nat, c: char, d: char) {
    i + 1 < |q| && q[i] == c && q[i + 1] == d
  }

  predicate HasAt(q: string, i: nat, part: string) {
    i + |part| <= |q| && forall k {:trigger part[k]} | 0 <= k < |part| :: q[i + k] == part[k]
  }

  /** Where the line comment that runs through byte `i` ends: after the next newline, or with the text. */
  function LineEnd(q: string, i: nat): (e: nat)
    requires i <= |q|
    ensures i <= e <= |q|
    decreases |q| - i
  {
    if i == |q| then i else if q[i] == '\n' then i + 1 else LineEnd(q, i + 1)
  }

  /** Where the block comment that runs through byte `i` ends: after its first closing mark. */
  function BlockEnd(q: string, i: nat): (e: Option<nat>)
    requires i <= |q|
    ensures e.Some? ==> i < e.value <= |q|
    decreases |q| - i
  {
    if i == |q| then None else if PairAt(q, i, '*', '/') then Some(i + 2) else BlockEnd(q, i + 1)
  }

  /** Where the single-quoted string that runs through byte `i` ends: after its closing quote. */
  function TextEnd(q: string, i: nat): (e: Option<nat>)
    requires i <= |q|
    ensures e.Some? ==> i < e.value <= |q|
    decreases |q| - i
  {
    if i == |q| then None
    else if i + 1 < |q| && (q[i] == '\\' || PairAt(q, i, '\'', '\'')) then TextEnd(q, i + 2)
    else if q[i] == '\'' then Some(i + 1)
    else TextEnd(q, i + 1)
  }

  /** Where the double-quoted identifier that runs through byte `i` ends: after its closing quote. */
  function IdentifierEnd(q: string, i: nat): (e: Option<nat>)
    requires i <= |q|
    ensures e.Some? ==> i < e.value <= |q|
    decreases |q| - i
  {
    if i == |q| then None
    else if PairAt(q, i, '"', '"') then IdentifierEnd(q, i + 2)
    else if q[i] == '"' then Some(i + 1)
    else IdentifierEnd(q, i + 1)
  }

  /** Where the dollar delimiter that runs through byte `i` ends: after a dollar sign that only tag bytes precede. */
  function TagEnd(q: string, i: nat): (e: Option<nat>)
    requires i <= |q|
    ensures e.Some? ==> i < e.value <= |q|
    decreases |q| - i
  {
    if i == |q| then None
    else if q[i] == '$' then Some(i + 1)
    else if IsTagChar(q[i]) then TagEnd(q, i + 1)
    else None
  }

  /** Where the dollar-quoted text that runs through byte `i` ends: after the first repetition of its delimiter. */
  function DollarEnd(q: string, i: nat, delimiter: string): (e: Option<nat>)
    requires i <= |q| && delimiter != ""
    ensures e.Some? ==> i + |delimiter| <= e.value <= |q|
    decreases |q| - i
  {
    if HasAt(q, i, delimiter) then Some(i + |delimiter|)
    else if i == |q| then None
    else DollarEnd(q, i + 1, delimiter)
  }

  /** Where the dollar delimiter that opens at byte `i` ends, if one opens there. */
  function DelimiterEnd(q: string, i: nat): (e: Option<nat>)
    requires i < |q|
    ensures e.Some? ==> i + 1 < e.value <= |q|
  {
    if q[i] == '$' then TagEnd(q, i + 1) else None
  }

  function KindAt(q: string, i: nat): Kind
    requires i < |q|
  {
    if PairAt(q, i, '-', '-') then LineComment
    else if PairAt(q, i, '/', '*') then BlockComment
    else if q[i] == '\'' then Text
    else if q[i] == '"' then Identifier
    else if DelimiterEnd(q, i).Some? then DollarText
    else if q[i] == ';' then Semicolon
    else if IsSpace(q[i]) then Blank
    else Symbol
  }

  /** Where the lexeme that begins at byte `i` ends, or nothing when it is never closed. */
  function EndAt(q: string, i: nat): (e: Option<nat>)
    requires i < |q|
    ensures e.Some? ==> i < e.value <= |q|
  {
    match KindAt(q, i)
    case LineComment => Some(LineEnd(q, i + 2))
    case BlockComment => BlockEnd(q, i + 2)
    case Text => TextEnd(q, i + 1)
    case Identifier => IdentifierEnd(q, i + 1)
    case DollarText =>
      var d := DelimiterEnd(q, i).value;
      DollarEnd(q, d, q[i..d])
    case _ => Some(i + 1)
  }

  function LexemeAt(q: string, i: nat): Lexeme
    requires i < |q| && EndAt(q, i).Some?
  {
    Lexeme(KindAt(q, i), q[i..EndAt(q, i).value])
  }

  function Append(ls: seq<Lexeme>, rest: Option<seq<Lexeme>>): Option<seq<Lexeme>> {
    match rest
    case None => None
    case Some(ms) => Some(ls + ms)
  }

  function LexFrom(q: string, i: nat): Option<seq<Lexeme>>
    requires i <= |q|
    decreases |q| - i
  {
    if i == |q| then Some([])
    else match EndAt(q, i)
      case None => None
      case Some(e) => Append([LexemeAt(q, i)], LexFrom(q, e))
  }

  /** The lexemes of a whole text, or nothing when some string, comment or dollar block is never closed. */
  function Lex(q: string): Option<seq<Lexeme>> {
    LexFrom(q, 0)
  }

  /** Comments and white space carry no token; a semicolon ends a statement. */
  predicate IsToken(l: Lexeme) {
    l.kind in {Text, Identifier, DollarText, Symbol}
  }

  predicate HasToken(ls: seq<Lexeme>) {
    exists l :: l in ls && IsToken(l)
  }

  /** Statements by definition: cut the lexemes at the semicolons and count the pieces that hold a token. */
  function Pieces(ls: seq<Lexeme>): (ps: seq<seq<Lexeme>>)
    ensures ps != []
  {
    if ls == [] then [[]]
    else
      var ps := Pieces(ls[1..]);
      if ls[0].kind == Semicolon then [[]] + ps else [[ls[0]] + ps[0]] + ps[1..]
  }

  function NonBlank(ps: seq<seq<Lexeme>>): nat {
    if ps == [] then 0 else (if HasToken(ps[0]) then 1 else 0) + NonBlank(ps[1..])
  }

  function Statements(ls: seq<Lexeme>): nat {
    NonBlank(Pieces(ls))
  }

  /** The number of statements in a text, or nothing when the text has no lexical reading. */
  function StatementCount(r: string): Option<nat> {
    match Lex(r)
    case None => None
    case Some(ls) => Some(Statements(ls))
  }

  function Texts(ls: seq<Lexeme>): string {
    if ls == [] then "" else ls[0].text + Texts(ls[1..])
  }

  lemma {:induction false} TextsFrom(q: string, i: nat)
    requires i <= |q| && LexFrom(q, i).Some?
    ensures Texts(LexFrom(q, i).value) == q[i..]
    decreases |q| - i
  {
    if i < |q| {
      var e := EndAt(q, i).value;
      TextsFrom(q, e);
      assert q[i..] == q[i..e] + q[e..];
    }
  }

  /** Lexing loses nothing: the lexemes concatenate back to the text. */
  lemma LexemesConcatenateBack(q: string)
    requires Lex(q).Some?
    ensures Texts(Lex(q).value) == q
  {
    TextsFrom(q, 0);
  }

  // ----- Statements cut by a semicolon -----

  /** Joins two lists of pieces: the last piece on the left runs into the first one on the right. */
  function Glue(p: seq<seq<Lexeme>>, q: seq<seq<Lexeme>>): seq<seq<Lexeme>>
    requires p != [] && q != []
  {
    p[..|p| - 1] + [p[|p| - 1] + q[0]] + q[1..]
  }

  lemma GlueBefore(l: Lexeme, p: seq<seq<Lexeme>>, q: seq<seq<Lexeme>>)
    requires p != [] && q != []
    ensures Glue([[]] + p, q) == [[]] + Glue(p, q)
    ensures Glue([[l] + p[0]] + p[1..], q) == [[l] + Glue(p, q)[0]] + Glue(p, q)[1..]
  {
    if |p| == 1 {
      assert p == [p[0]];
      assert ([l] + p[0]) + q[0] == [l] + (p[0] + q[0]);
    }
  }

  lemma {:induction false} PiecesConcat(a: seq<Lexeme>, b: seq<Lexeme>)
    ensures Pieces(a + b) == Glue(Pieces(a), Pieces(b))
  {
    if a == [] {
      assert a + b == b;
      assert [] + Pieces(b)[0] == Pieces(b)[0];
    } else {
      PiecesConcat(a[1..], b);
      assert (a + b)[1..] == a[1..] + b;
      GlueBefore(a[0], Pieces(a[1..]), Pieces(b));
    }
  }

  lemma {:induction false} NonBlankConcat(p: seq<seq<Lexeme>>, q: seq<seq<Lexeme>>)
    ensures NonBlank(p + q) == NonBlank(p) + NonBlank(q)
  {
    if p == [] {
      assert p + q == q;
    } else {
      NonBlankConcat(p[1..], q);
      assert (p + q)[1..] == p[1..] + q;
    }
  }

  /** A semicolon lexeme separates: the statements on its two sides are counted independently. */
  lemma StatementsSplit(a: seq<Lexeme>, s: Lexeme, b: seq<Lexeme>)
    requires s.kind == Semicolon
    ensures Statements(a + [s] + b) == Statements(a) + Statements(b)
  {
    var rest := [s] + b;
    assert rest[1..] == b;
    PiecesConcat(a, rest);
    var p, q := Pieces(a), Pieces(b);
    assert Pieces(rest) == [[]] + q;
    assert p[|p| - 1] + [] == p[|p| - 1];
    assert Glue(p, [[]] + q) == p + q;
    NonBlankConcat(Pieces(a), Pieces(b));
    assert a + [s] + b == a + rest;
  }

  // ----- Counting from left to right -----

  /** The statements that a semicolon has already ended. */
  function Ended(ls: seq<Lexeme>): nat {
    NonBlank(Pieces(ls)[..|Pieces(ls)| - 1])
  }

  /** Whether the statement still being read holds a token. */
  predicate Pending(ls: seq<Lexeme>) {
    HasToken(Pieces(ls)[|Pieces(ls)| - 1])
  }

  lemma StatementsAreEndedOrPending(ls: seq<Lexeme>)
    ensures Statements(ls) == Ended(ls) + if Pending(ls) then 1 else 0
  {
    var ps := Pieces(ls);
    var last := [ps[|ps| - 1]];
    NonBlankConcat(ps[..|ps| - 1], last);
    assert ps[..|ps| - 1] + last == ps;
    assert last[1..] == [];
  }

  lemma CountOneMore(ls: seq<Lexeme>, l: Lexeme)
    ensures l.kind == Semicolon ==> !Pending(ls + [l]) && Ended(ls + [l]) == Ended(ls) + if Pending(ls) then 1 else 0
    ensures l.kind != Semicolon ==> Pending(ls + [l]) == (Pending(ls) || IsToken(l)) && Ended(ls + [l]) == Ended(ls)
  {
    StatementsAreEndedOrPending(ls);
    PiecesConcat(ls, [l]);
    var p := Pieces(ls);
    assert [l][1..] == [] && Pieces([]) == [[]];
    if l.kind == Semicolon {
      assert Pieces([l]) == [[], []];
      assert p[|p| - 1] + [] == p[|p| - 1];
      assert Glue(p, [[], []])[..|p|] == p;
    } else {
      var none: seq<Lexeme> := [];
      assert [l] + none == [l] && Pieces(none) == [none];
      assert [[l] + none] + [none][1..] == [[l]];
      assert Pieces([l]) == [[l]];
      var last := p[|p| - 1];
      assert Glue(p, [[l]]) == p[..|p| - 1] + [last + [l]];
      assert forall m :: m in last + [l] <==> m in last || m == l;
      assert (exists m :: m in last + [l] && IsToken(m)) <==> HasToken(last) || IsToken(l);
    }
  }

  // ----- A closed text is read the same whatever follows its semicolon -----

  predicate OpenComment(l: Lexeme) {
    l.kind == LineComment && (l.text == "" || l.text[|l.text| - 1] != '\n')
  }

  predicate ClosedFrom(q: string, i: nat)
    requires i <= |q|
  {
    match LexFrom(q, i)
    case None => false
    case Some(ls) => ls == [] || !OpenComment(ls[|ls| - 1])
  }

  /** Nothing is left open at the end of the text, not even a line comment. */
  predicate Closed(q: string) {
    ClosedFrom(q, 0)
  }

  lemma {:induction false} LineEndExtends(q: string, t: string, i: nat)
    requires i <= |q|
    ensures i < LineEnd(q, i) && q[LineEnd(q, i) - 1] == '\n' ==> LineEnd(q + t, i) == LineEnd(q, i)
    ensures i < LineEnd(q, i) && q[LineEnd(q, i) - 1] != '\n' ==> LineEnd(q, i) == |q|
    decreases |q| - i
  {
    if i < |q| && q[i] != '\n' {
      LineEndExtends(q, t, i + 1);
    }
  }

  lemma {:induction false} BlockEndExtends(q: string, t: string, i: nat)
    requires i <= |q| && BlockEnd(q, i).Some?
    ensures BlockEnd(q + t, i) == BlockEnd(q, i)
    decreases |q| - i
  {
    if !PairAt(q, i, '*', '/') {
      BlockEndExtends(q, t, i + 1);
    }
  }

  lemma {:induction false} TextEndExtends(q: string, t: string, i: nat)
    requires i <= |q| && TextEnd(q, i).Some? && t != "" && t[0] != '\''
    ensures TextEnd(q + t, i) == TextEnd(q, i)
    decreases |q| - i
  {
    if i + 1 < |q| && (q[i] == '\\' || PairAt(q, i, '\'', '\'')) {
      TextEndExtends(q, t, i + 2);
    } else if q[i] != '\'' {
      TextEndExtends(q, t, i + 1);
    }
  }

  lemma {:induction false} IdentifierEndExtends(q: string, t: string, i: nat)
    requires i <= |q| && IdentifierEnd(q, i).Some? && t != "" && t[0] != '"'
    ensures IdentifierEnd(q + t, i) == IdentifierEnd(q, i)
    decreases |q| - i
  {
    if PairAt(q, i, '"', '"') {
      IdentifierEndExtends(q, t, i + 2);
    } else if q[i] != '"' {
      IdentifierEndExtends(q, t, i + 1);
    }
  }

  /** No dollar tag crosses into a continuation that opens with a byte no tag may contain. */
  lemma {:induction false} TagEndExtends(q: string, t: string, i: nat)
    requires i <= |q| && t != "" && t[0] != '$' && !IsTagChar(t[0])
    ensures TagEnd(q + t, i) == TagEnd(q, i)
    decreases |q| - i
  {
    if i < |q| {
      TagEndExtends(q, t, i + 1);
    }
  }

  lemma {:induction false} DollarEndExtends(q: string, t: string, i: nat, delimiter: string)
    requires i <= |q| && delimiter != "" && DollarEnd(q, i, delimiter).Some?
    ensures DollarEnd(q + t, i, delimiter) == DollarEnd(q, i, delimiter)
    decreases |q| - i
  {
    // The first repetition lies inside `q`, so no earlier one can reach beyond it.
    if !HasAt(q, i, delimiter) {
      DollarEndExtends(q, t, i + 1, delimiter);
    }
  }

  lemma KindExtends(q: string, t: string, i: nat)
    requires i < |q| && t != "" && t[0] == ';'
    ensures KindAt(q + t, i) == KindAt(q, i) && DelimiterEnd(q + t, i) == DelimiterEnd(q, i)
  {
    TagEndExtends(q, t, i + 1);
  }

  lemma EndExtends(q: string, t: string, i: nat)
    requires i < |q| && EndAt(q, i).Some? && !OpenComment(LexemeAt(q, i)) && t != "" && t[0] == ';'
    ensures EndAt(q + t, i) == EndAt(q, i)
  {
    KindExtends(q, t, i);
    match KindAt(q, i) {
      case LineComment =>
        var e := EndAt(q, i).value;
        assert q[i..e][e - i - 1] == q[e - 1];
        LineEndExtends(q, t, i + 2);
      case BlockComment => BlockEndExtends(q, t, i + 2);
      case Text => TextEndExtends(q, t, i + 1);
      case Identifier => IdentifierEndExtends(q, t, i + 1);
      case DollarText =>
        var d := DelimiterEnd(q, i).value;
        assert (q + t)[i..d] == q[i..d];
        DollarEndExtends(q, t, d, q[i..d]);
      case _ =>
    }
  }

  /** A closed text stays closed after its first lexeme, and that lexeme is no open comment. */
  lemma ClosedStep(q: string, i: nat)
    requires i < |q| && ClosedFrom(q, i)
    ensures EndAt(q, i).Some? && ClosedFrom(q, EndAt(q, i).value) && !OpenComment(LexemeAt(q, i))
  {
    var e := EndAt(q, i).value;
    var ls, ms := LexFrom(q, i).value, LexFrom(q, e).value;
    if ms == [] {
      assert ls[|ls| - 1] == LexemeAt(q, i);
    } else {
      assert ls[|ls| - 1] == ms[|ms| - 1];
      if KindAt(q, i) == LineComment {
        LineEndExtends(q, "", i + 2);
        assert q[i..e][e - i - 1] == q[e - 1];
      }
    }
  }

  lemma AppendTwice(ls: seq<Lexeme>, ms: seq<Lexeme>, rest: Option<seq<Lexeme>>)
    ensures Append(ls, Append(ms, rest)) == Append(ls + ms, rest)
  {
    if rest.Some? {
      assert ls + (ms + rest.value) == ls + ms + rest.value;
    }
  }

  lemma {:induction false} LexAcross(q: string, t: string, i: nat)
    requires i <= |q| && ClosedFrom(q, i) && t != "" && t[0] == ';'
    ensures LexFrom(q + t, i) == Append(LexFrom(q, i).value, LexFrom(q + t, |q|))
    decreases |q| - i
  {
    if i == |q| {
      var rest := LexFrom(q + t, |q|);
      assert rest.Some? ==> [] + rest.value == rest.value;
    } else {
      ClosedStep(q, i);
      KindExtends(q, t, i);
      EndExtends(q, t, i);
      var e := EndAt(q, i).value;
      assert (q + t)[i..e] == q[i..e];
      LexAcross(q, t, e);
      AppendTwice([LexemeAt(q, i)], LexFrom(q, e).value, LexFrom(q + t, |q|));
    }
  }

  // ----- Reading a text that stands inside a longer one -----

  /** The text `u` ends with `q`, which begins at byte `n` of `u`. */
  predicate EndsWith(u: string, n: nat, q: string) {
    |u| == n + |q| && forall k {:trigger q[k]} | 0 <= k < |q| :: u[n + k] == q[k]
  }

  function Shift(n: nat, e: Option<nat>): Option<nat> {
    match e
    case None => None
    case Some(m) => Some(n + m)
  }

  lemma {:induction false} LineEndShift(u: string, n: nat, q: string, i: nat)
    requires i <= |q| && EndsWith(u, n, q)
    ensures LineEnd(u, n + i) == n + LineEnd(q, i)
    decreases |q| - i
  {
    if i < |q| && q[i] != '\n' {
      LineEndShift(u, n, q, i + 1);
    }
  }

  lemma {:induction false} BlockEndShift(u: string, n: nat, q: string, i: nat)
    requires i <= |q| && EndsWith(u, n, q)
    ensures BlockEnd(u, n + i) == Shift(n, BlockEnd(q, i))
    decreases |q| - i
  {
    if i < |q| {
      assert i + 1 < |q| ==> q[i + 1] == u[n + i + 1];
      BlockEndShift(u, n, q, i + 1);
    }
  }

  lemma {:induction false} TagEndShift(u: string, n: nat, q: string, i: nat)
    requires i <= |q| && EndsWith(u, n, q)
    ensures TagEnd(u, n + i) == Shift(n, TagEnd(q, i))
    decreases |q| - i
  {
    if i < |q| {
      TagEndShift(u, n, q, i + 1);
    }
  }

  lemma {:induction false} TextEndShift(u: string, n: nat, q: string, i: nat)
    requires i <= |q| && EndsWith(u, n, q)
    ensures TextEnd(u, n + i) == Shift(n, TextEnd(q, i))
    decreases |q| - i
  {
    if i + 1 < |q| {
      assert q[i + 1] == u[n + i + 1];
      TextEndShift(u, n, q, i + 2);
    }
    if i < |q| {
      TextEndShift(u, n, q, i + 1);
    }
  }

  lemma {:induction false} IdentifierEndShift(u: string, n: nat, q: string, i: nat)
    requires i <= |q| && EndsWith(u, n, q)
    ensures IdentifierEnd(u, n + i) == Shift(n, IdentifierEnd(q, i))
    decreases |q| - i
  {
    if i + 1 < |q| {
      assert q[i + 1] == u[n + i + 1];
      IdentifierEndShift(u, n, q, i + 2);
    }
    if i < |q| {
      IdentifierEndShift(u, n, q, i + 1);
    }
  }

  lemma {:induction false} DollarEndShift(u: string, n: nat, q: string, i: nat, delimiter: string)
    requires i <= |q| && EndsWith(u, n, q) && delimiter != ""
    ensures DollarEnd(u, n + i, delimiter) == Shift(n, DollarEnd(q, i, delimiter))
    decreases |q| - i
  {
    if i < |q| {
      DollarEndShift(u, n, q, i + 1, delimiter);
    }
  }

  lemma KindShift(u: string, n: nat, q: string, i: nat)
    requires i < |q| && EndsWith(u, n, q)
    ensures KindAt(u, n + i) == KindAt(q, i) && DelimiterEnd(u, n + i) == Shift(n, DelimiterEnd(q, i))
  {
    TagEndShift(u, n, q, i + 1);
    assert u[n + i] == q[i] && (i + 1 < |q| ==> q[i + 1] == u[n + i + 1]);
  }

  lemma LexemeShift(u: string, n: nat, q: string, i: nat)
    requires i < |q| && EndsWith(u, n, q)
    ensures EndAt(u, n + i) == Shift(n, EndAt(q, i))
  {
    KindShift(u, n, q, i);
    match KindAt(q, i) {
      case LineComment => LineEndShift(u, n, q, i + 2);
      case BlockComment => BlockEndShift(u, n, q, i + 2);
      case Text => TextEndShift(u, n, q, i + 1);
      case Identifier => IdentifierEndShift(u, n, q, i + 1);
      case DollarText =>
        var d := DelimiterEnd(q, i).value;
        assert u[n + i..n + d] == q[i..d];
        DollarEndShift(u, n, q, d, q[i..d]);
      case _ =>
    }
  }

  /** What precedes a text does not change how the text itself is read from its beginning. */
  lemma {:induction false} LexShift(u: string, n: nat, q: string, i: nat)
    requires i <= |q| && EndsWith(u, n, q)
    ensures LexFrom(u, n + i) == LexFrom(q, i)
    decreases |q| - i
  {
    if i < |q| {
      KindShift(u, n, q, i);
      LexemeShift(u, n, q, i);
      if EndAt(q, i).Some? {
        var e := EndAt(q, i).value;
        assert u[n + i..n + e] == q[i..e];
        LexShift(u, n, q, e);
      }
    }
  }

  const SEMICOLON := Lexeme(Semicolon, ";")

  lemma LexSemicolon(q: string, i: nat)
    requires i < |q| && q[i] == ';'
    ensures LexFrom(q, i) == Append([SEMICOLON], LexFrom(q, i + 1))
  {
    assert q[i..i + 1] == ";";
  }

  /** Reading resumes afresh after the semicolon that follows a closed text. */
  lemma LexAcrossSemicolon(a: string, b: string)
    requires Closed(a)
    ensures Lex(a + ";" + b) == Append(Lex(a).value + [SEMICOLON], Lex(b))
  {
    var q := a + (";" + b);
    assert q == a + ";" + b;
    LexAcross(a, ";" + b, 0);
    LexShift(q, |a| + 1, b, 0);
    LexSemicolon(q, |a|);
    AppendTwice(Lex(a).value, [SEMICOLON], Lex(b));
  }

  /**
   The count composes: if `a` leaves nothing open, the statements of `a;b` are those of `a` and those
   of `b`, and `a;b` is rejected exactly when `b` is.
   */
  lemma CountComposes(a: string, b: string)
    requires Closed(a)
    ensures StatementCount(a + ";" + b) == Shift(StatementCount(a).value, StatementCount(b))
  {
    LexAcrossSemicolon(a, b);
    if Lex(b).Some? {
      StatementsSplit(Lex(a).value, SEMICOLON, Lex(b).value);
    }
  }
}
