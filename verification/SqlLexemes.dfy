/**
 What a lexeme looks like, said without reading a text: the grammar's answer on a text is the one sequence of
 such lexemes that spells it.
 */
module SqlLexemes {
  import opened Options
  import opened SqlGrammar

  /** A piece of quoted text: a byte that stands for itself, the quote written twice, or a backslash and any byte. */
  datatype Unit = Plain(c: char) | Doubled | Escaped(c: char)

  function Spelled(us: seq<Unit>, quote: char): string {
    if us == [] then "" else SpelledUnit(us[0], quote) + Spelled(us[1..], quote)
  }

  function SpelledUnit(u: Unit, quote: char): string {
    match u
    case Plain(c) => [c]
    case Doubled => [quote, quote]
    case Escaped(c) => ['\\', c]
  }

  /** Only a backslash and what it escapes may hold a lone quote; an identifier has no escapes. */
  predicate Fits(u: Unit, quote: char, escapes: bool) {
    match u
    case Plain(c) => c != quote && (escapes ==> c != '\\')
    case Doubled => true
    case Escaped(_) => escapes
  }

  predicate Spells(us: seq<Unit>, quote: char, escapes: bool) {
    forall k | 0 <= k < |us| :: Fits(us[k], quote, escapes)
  }

  function QuotedText(us: seq<Unit>): string {
    "'" + Spelled(us, '\'') + "'"
  }

  function QuotedIdentifier(us: seq<Unit>): string {
    "\"" + Spelled(us, '"') + "\""
  }

  predicate Occurs(part: string, s: string) {
    exists k :: 0 <= k <= |s| && HasAt(s, k, part)
  }

  predicate IsTag(tag: string) {
    forall k | 0 <= k < |tag| :: IsTagChar(tag[k])
  }

  function Delimiter(tag: string): string {
    "$" + tag + "$"
  }

  /** The delimiter is not met before its second copy, not even by a tail of the body that runs into that copy. */
  predicate DollarQuotes(tag: string, body: string) {
    IsTag(tag) && !Occurs(Delimiter(tag), body + "$" + tag)
  }

  function DollarQuoted(tag: string, body: string): string {
    Delimiter(tag) + body + Delimiter(tag)
  }

  ghost predicate WellFormedLineComment(text: string) {
    |text| >= 2 && text[..2] == "--" && forall k | 2 <= k < |text| - 1 :: text[k] != '\n'
  }

  ghost predicate WellFormedBlockComment(text: string) {
    exists body :: text == "/*" + body + "*/" && !Occurs("*/", body)
  }

  ghost predicate WellFormedText(text: string) {
    exists us :: text == QuotedText(us) && Spells(us, '\'', true)
  }

  ghost predicate WellFormedIdentifier(text: string) {
    exists us :: text == QuotedIdentifier(us) && Spells(us, '"', false)
  }

  ghost predicate WellFormedDollarText(text: string) {
    exists tag, body :: text == DollarQuoted(tag, body) && DollarQuotes(tag, body)
  }

  ghost predicate WellFormed(l: Lexeme) {
    match l.kind
    case LineComment => WellFormedLineComment(l.text)
    case BlockComment => WellFormedBlockComment(l.text)
    case Text => WellFormedText(l.text)
    case Identifier => WellFormedIdentifier(l.text)
    case DollarText => WellFormedDollarText(l.text)
    case Semicolon => l.text == ";"
    case Blank => |l.text| == 1 && IsSpace(l.text[0])
    case Symbol => |l.text| == 1 && l.text[0] !in {'\'', '"', ';'} && !IsSpace(l.text[0])
  }

  predicate Begins(s: string, c: char) {
    s != "" && s[0] == c
  }

  /** What follows a dollar sign makes it open a dollar-quoted text. */
  predicate OpensTag(rest: string) {
    exists n | 0 <= n < |rest| :: rest[n] == '$' && IsTag(rest[..n])
  }

  /** What follows a lexeme does not run into it. */
  ghost predicate Separated(l: Lexeme, rest: string) {
    match l.kind
    case LineComment => OpenComment(l) ==> rest == ""
    case Text => !Begins(rest, '\'')
    case Identifier => !Begins(rest, '"')
    case Symbol =>
      && (l.text == "-" ==> !Begins(rest, '-')) && (l.text == "/" ==> !Begins(rest, '*'))
      && (l.text == "$" ==> !OpensTag(rest))
    case _ => true
  }

  ghost predicate Reads(ls: seq<Lexeme>) {
    ls == [] || (WellFormed(ls[0]) && Separated(ls[0], Texts(ls[1..])) && Reads(ls[1..]))
  }

  // ----- A well-formed lexeme is read as what it is -----

  lemma {:induction false} LineEndAfter(q: string, i: nat, e: nat)
    requires i <= e <= |q| && forall k | i <= k < e - 1 :: q[k] != '\n'
    requires e == |q| || (i < e && q[e - 1] == '\n')
    ensures LineEnd(q, i) == e
    decreases e - i
  {
    if i < e && q[i] != '\n' {
      LineEndAfter(q, i + 1, e);
    }
  }

  lemma {:induction false} BlockEndAfter(q: string, i: nat, e: nat)
    requires i <= e && e + 2 <= |q| && HasAt(q, e, "*/") && forall k | i <= k < e :: !HasAt(q, k, "*/")
    ensures BlockEnd(q, i) == Some(e + 2)
    decreases e - i
  {
    assert "*/"[0] == '*' && "*/"[1] == '/';
    if i < e {
      assert !HasAt(q, i, "*/");
      BlockEndAfter(q, i + 1, e);
    }
  }

  lemma {:induction false} DollarEndAfter(q: string, i: nat, e: nat, d: string)
    requires i <= e && d != "" && HasAt(q, e, d) && forall k | i <= k < e :: !HasAt(q, k, d)
    ensures DollarEnd(q, i, d) == Some(e + |d|)
    decreases e - i
  {
    if i < e {
      DollarEndAfter(q, i + 1, e, d);
    }
  }

  lemma {:induction false} TagEndAfter(q: string, i: nat, e: nat)
    requires i <= e < |q| && q[e] == '$' && forall k | i <= k < e :: IsTagChar(q[k])
    ensures TagEnd(q, i) == Some(e + 1)
    decreases e - i
  {
    if i < e {
      TagEndAfter(q, i + 1, e);
    }
  }

  lemma {:induction false} TagEndMeans(q: string, i: nat)
    requires i <= |q|
    ensures match TagEnd(q, i)
            case Some(e) => q[e - 1] == '$' && forall k | i <= k < e - 1 :: IsTagChar(q[k])
            case None => forall n | i <= n < |q| && q[n] == '$' :: exists k | i <= k < n :: !IsTagChar(q[k])
    decreases |q| - i
  {
    if i < |q| && q[i] != '$' && IsTagChar(q[i]) {
      TagEndMeans(q, i + 1);
    }
  }

  lemma TextUnitIsPassed(q: string, u: Unit)
    requires Fits(u, '\'', true) && |SpelledUnit(u, '\'')| <= |q| && q[..|SpelledUnit(u, '\'')|] == SpelledUnit(u, '\'')
    ensures TextEnd(q, 0) == TextEnd(q, |SpelledUnit(u, '\'')|)
  {
    var spelled := SpelledUnit(u, '\'');
    assert q[0] == spelled[0] && (|spelled| == 2 ==> q[1] == spelled[1]);
  }

  lemma {:induction false} TextEndAfter(us: seq<Unit>, rest: string)
    requires Spells(us, '\'', true) && !Begins(rest, '\'')
    ensures TextEnd(Spelled(us, '\'') + "'" + rest, 0) == Some(|Spelled(us, '\'')| + 1)
  {
    var q := Spelled(us, '\'') + "'" + rest;
    if us != [] {
      var u, tail := SpelledUnit(us[0], '\''), Spelled(us[1..], '\'') + "'" + rest;
      assert q == u + tail;
      TextUnitIsPassed(q, us[0]);
      TextEndAfter(us[1..], rest);
      TextEndShift(q, |u|, tail, 0);
    }
  }

  lemma IdentifierUnitIsPassed(q: string, u: Unit)
    requires Fits(u, '"', false) && |SpelledUnit(u, '"')| <= |q| && q[..|SpelledUnit(u, '"')|] == SpelledUnit(u, '"')
    ensures IdentifierEnd(q, 0) == IdentifierEnd(q, |SpelledUnit(u, '"')|)
  {
    var spelled := SpelledUnit(u, '"');
    assert q[0] == spelled[0] && (|spelled| == 2 ==> q[1] == spelled[1]);
  }

  lemma {:induction false} IdentifierEndAfter(us: seq<Unit>, rest: string)
    requires Spells(us, '"', false) && !Begins(rest, '"')
    ensures IdentifierEnd(Spelled(us, '"') + "\"" + rest, 0) == Some(|Spelled(us, '"')| + 1)
  {
    var q := Spelled(us, '"') + "\"" + rest;
    if us != [] {
      var u, tail := SpelledUnit(us[0], '"'), Spelled(us[1..], '"') + "\"" + rest;
      assert q == u + tail;
      IdentifierUnitIsPassed(q, us[0]);
      IdentifierEndAfter(us[1..], rest);
      IdentifierEndShift(q, |u|, tail, 0);
    }
  }

  lemma TextIsRead(us: seq<Unit>, rest: string)
    requires Spells(us, '\'', true) && !Begins(rest, '\'')
    ensures KindAt(QuotedText(us) + rest, 0) == Text
        && EndAt(QuotedText(us) + rest, 0) == Some(|QuotedText(us)|)
  {
    var q, tail := QuotedText(us) + rest, Spelled(us, '\'') + "'" + rest;
    assert q == "'" + tail;
    TextEndAfter(us, rest);
    TextEndShift(q, 1, tail, 0);
  }

  lemma IdentifierIsRead(us: seq<Unit>, rest: string)
    requires Spells(us, '"', false) && !Begins(rest, '"')
    ensures KindAt(QuotedIdentifier(us) + rest, 0) == Identifier
        && EndAt(QuotedIdentifier(us) + rest, 0) == Some(|QuotedIdentifier(us)|)
  {
    var q, tail := QuotedIdentifier(us) + rest, Spelled(us, '"') + "\"" + rest;
    assert q == "\"" + tail;
    IdentifierEndAfter(us, rest);
    IdentifierEndShift(q, 1, tail, 0);
  }

  /** Inside a text, what stands in one of its parts stands at the same place of the part. */
  lemma HasAtWithin(q: string, n: nat, inner: string, k: nat, part: string)
    requires n + |inner| <= |q| && q[n..n + |inner|] == inner && n <= k && k + |part| <= n + |inner|
    ensures HasAt(q, k, part) <==> HasAt(inner, k - n, part)
  {
    assert forall j {:trigger part[j]} | 0 <= j < |part| :: q[k + j] == inner[k - n + j];
  }

  lemma BlockCommentIsRead(body: string, rest: string)
    requires !Occurs("*/", body)
    ensures var text := "/*" + body + "*/";
            KindAt(text + rest, 0) == BlockComment && EndAt(text + rest, 0) == Some(|text|)
  {
    var q, e := "/*" + body + "*/" + rest, 2 + |body|;
    assert q[0] == '/' && q[1] == '*' && q[e] == '*' && q[e + 1] == '/';
    assert "*/"[0] == '*' && "*/"[1] == '/' && q[2..e] == body;
    forall k | 2 <= k < e ensures !HasAt(q, k, "*/") {
      if k + 2 <= e {
        HasAtWithin(q, 2, body, k, "*/");
      } else {
        assert q[k + 1] == "*/"[0];
      }
    }
    BlockEndAfter(q, 2, e);
  }

  lemma LineCommentIsRead(text: string, rest: string)
    requires WellFormedLineComment(text) && (OpenComment(Lexeme(LineComment, text)) ==> rest == "")
    ensures KindAt(text + rest, 0) == LineComment && EndAt(text + rest, 0) == Some(|text|)
  {
    var q := text + rest;
    assert text[0] == text[..2][0] && text[1] == text[..2][1];
    LineEndAfter(q, 2, |text|);
  }

  lemma DollarTextIsRead(tag: string, body: string, rest: string)
    requires DollarQuotes(tag, body)
    ensures var text := DollarQuoted(tag, body);
            KindAt(text + rest, 0) == DollarText && EndAt(text + rest, 0) == Some(|text|)
  {
    hide Delimiter, KindAt, EndAt, HasAt;
    var d := Delimiter(tag);
    var q := d + body + d + rest;
    DelimiterIsRead(tag, body + d + rest);
    DollarQuotedParts(q, d, body, rest);
    NoEarlierRepetition(q, |d|, tag, body, rest);
    ClosedDollarIsRead(q, d, |body|);
  }

  lemma ClosedDollarIsRead(q: string, d: string, n: nat)
    requires |d| >= 2 && HasAt(q, |d| + n, d) && q[0..|d|] == d
    requires DelimiterEnd(q, 0) == Some(|d|) && KindAt(q, 0) == DollarText
    requires forall k | |d| <= k < |d| + n :: !HasAt(q, k, d)
    ensures EndAt(q, 0) == Some(|d| + n + |d|)
  {
    DollarEndAfter(q, |d|, |d| + n, d);
  }

  lemma DollarQuotedParts(q: string, d: string, body: string, rest: string)
    requires q == d + body + d + rest
    ensures q == d + (body + d + rest) && q[0..|d|] == d && q[|d|..] == body + d + rest
    ensures HasAt(q, |d| + |body|, d)
  {
  }

  lemma DelimiterIsRead(tag: string, rest: string)
    requires IsTag(tag)
    ensures var q := Delimiter(tag) + rest;
            && |Delimiter(tag)| == |tag| + 2 && DelimiterEnd(q, 0) == Some(|tag| + 2) && KindAt(q, 0) == DollarText
  {
    var q := Delimiter(tag) + rest;
    assert q[0] == '$' && q[|tag| + 1] == '$';
    assert forall k | 1 <= k < |tag| + 1 :: q[k] == tag[k - 1];
    TagEndAfter(q, 1, |tag| + 1);
  }

  lemma NoEarlierRepetition(q: string, n: nat, tag: string, body: string, rest: string)
    requires DollarQuotes(tag, body) && n <= |q| && q[n..] == body + Delimiter(tag) + rest
    ensures forall k | n <= k < n + |body| :: !HasAt(q, k, Delimiter(tag))
  {
    var inner := body + "$" + tag;
    assert q[n..n + |inner|] == q[n..][..|inner|] == inner;
    forall k | n <= k < n + |body| ensures !HasAt(q, k, Delimiter(tag)) {
      HasAtWithin(q, n, inner, k, Delimiter(tag));
    }
  }

  lemma TagOpens(q: string)
    requires q != ""
    ensures TagEnd(q, 1).Some? <==> OpensTag(q[1..])
  {
    var rest := q[1..];
    TagEndMeans(q, 1);
    if TagEnd(q, 1).Some? {
      var e := TagEnd(q, 1).value;
      assert rest[e - 2] == '$' && IsTag(rest[..e - 2]);
    } else {
      forall n | 0 <= n < |rest| && rest[n] == '$' ensures !IsTag(rest[..n]) {
        assert q[n + 1] == '$';
        var k :| 1 <= k < n + 1 && !IsTagChar(q[k]);
        assert rest[..n][k - 1] == q[k];
      }
    }
  }

  lemma SingleByteIsRead(l: Lexeme, rest: string)
    requires l.kind in {Semicolon, Blank, Symbol} && WellFormed(l) && Separated(l, rest)
    ensures KindAt(l.text + rest, 0) == l.kind && EndAt(l.text + rest, 0) == Some(1)
  {
    var q := l.text + rest;
    assert l.text == [q[0]] && q[1..] == rest;
    if q[0] == '$' {
      TagOpens(q);
    }
  }

  /** A well-formed lexeme that nothing runs into is read as just that lexeme. */
  lemma LexemeIsRead(l: Lexeme, rest: string)
    requires WellFormed(l) && Separated(l, rest)
    ensures l.text != "" && KindAt(l.text + rest, 0) == l.kind && EndAt(l.text + rest, 0) == Some(|l.text|)
  {
    match l.kind {
      case LineComment => LineCommentIsRead(l.text, rest);
      case BlockComment =>
        var body :| l.text == "/*" + body + "*/" && !Occurs("*/", body);
        BlockCommentIsRead(body, rest);
      case Text =>
        var us :| l.text == QuotedText(us) && Spells(us, '\'', true);
        TextIsRead(us, rest);
      case Identifier =>
        var us :| l.text == QuotedIdentifier(us) && Spells(us, '"', false);
        IdentifierIsRead(us, rest);
      case DollarText =>
        var tag, body :| l.text == DollarQuoted(tag, body) && DollarQuotes(tag, body);
        DollarTextIsRead(tag, body, rest);
      case _ => SingleByteIsRead(l, rest);
    }
  }

  // ----- Whatever is read is well formed -----

  lemma {:induction false} LineEndMeans(q: string, i: nat)
    requires i <= |q|
    ensures var e := LineEnd(q, i);
            && (forall k | i <= k < e - 1 :: q[k] != '\n') && (e == |q| || (i < e && q[e - 1] == '\n'))
    decreases |q| - i
  {
    if i < |q| && q[i] != '\n' {
      LineEndMeans(q, i + 1);
    }
  }

  lemma {:induction false} BlockEndMeans(q: string, i: nat)
    requires i <= |q| && BlockEnd(q, i).Some?
    ensures var e := BlockEnd(q, i).value;
            i + 2 <= e && HasAt(q, e - 2, "*/") && forall k | i <= k < e - 2 :: !HasAt(q, k, "*/")
    decreases |q| - i
  {
    assert "*/"[0] == '*' && "*/"[1] == '/';
    if !PairAt(q, i, '*', '/') {
      assert !HasAt(q, i, "*/");
      BlockEndMeans(q, i + 1);
    }
  }

  lemma {:induction false} DollarEndMeans(q: string, i: nat, d: string)
    requires i <= |q| && d != "" && DollarEnd(q, i, d).Some?
    ensures var e := DollarEnd(q, i, d).value;
            i + |d| <= e && HasAt(q, e - |d|, d) && forall k | i <= k < e - |d| :: !HasAt(q, k, d)
    decreases |q| - i
  {
    if !HasAt(q, i, d) {
      DollarEndMeans(q, i + 1, d);
    }
  }

  lemma {:induction false} TextEndMeans(q: string, i: nat) returns (us: seq<Unit>)
    requires i <= |q| && TextEnd(q, i).Some?
    ensures var e := TextEnd(q, i).value;
            q[i..e] == Spelled(us, '\'') + "'" && Spells(us, '\'', true) && !Begins(q[e..], '\'')
    decreases |q| - i
  {
    if i + 1 < |q| && (q[i] == '\\' || PairAt(q, i, '\'', '\'')) {
      us := TextEndMeans(q, i + 2);
      us := [if q[i] == '\\' then Escaped(q[i + 1]) else Doubled] + us;
    } else if q[i] == '\'' {
      us := [];
    } else {
      us := TextEndMeans(q, i + 1);
      us := [Plain(q[i])] + us;
    }
  }

  lemma {:induction false} IdentifierEndMeans(q: string, i: nat) returns (us: seq<Unit>)
    requires i <= |q| && IdentifierEnd(q, i).Some?
    ensures var e := IdentifierEnd(q, i).value;
            q[i..e] == Spelled(us, '"') + "\"" && Spells(us, '"', false) && !Begins(q[e..], '"')
    decreases |q| - i
  {
    if PairAt(q, i, '"', '"') {
      us := IdentifierEndMeans(q, i + 2);
      us := [Doubled] + us;
    } else if q[i] == '"' {
      us := [];
    } else {
      us := IdentifierEndMeans(q, i + 1);
      us := [Plain(q[i])] + us;
    }
  }

  lemma ReadBlockComment(q: string)
    requires q != "" && KindAt(q, 0) == BlockComment && EndAt(q, 0).Some?
    ensures WellFormedBlockComment(q[..EndAt(q, 0).value])
  {
    BlockEndMeans(q, 2);
    var e := EndAt(q, 0).value;
    var body := q[2..e - 2];
    assert "*/"[0] == '*' && "*/"[1] == '/';
    assert q[e - 2 + 0] == '*' && q[e - 2 + 1] == '/';
    assert q[..e] == "/*" + body + "*/";
    forall k | 0 <= k <= |body| ensures !HasAt(body, k, "*/") {
      if k + 2 <= |body| {
        HasAtWithin(q, 2, body, 2 + k, "*/");
      }
    }
  }

  lemma ReadDollarText(q: string)
    requires q != "" && KindAt(q, 0) == DollarText && EndAt(q, 0).Some?
    ensures WellFormedDollarText(q[..EndAt(q, 0).value])
  {
    var n, e := DelimiterEnd(q, 0).value, EndAt(q, 0).value;
    ReadDelimiter(q);
    DollarEndMeans(q, n, q[0..n]);
    ReadBetween(q, n, e, q[1..n - 1]);
  }

  lemma ReadBetween(q: string, n: nat, e: nat, tag: string)
    requires n == |tag| + 2 && 2 * n <= e <= |q| && q[0..n] == Delimiter(tag) && IsTag(tag)
    requires HasAt(q, e - n, Delimiter(tag)) && forall k | n <= k < e - n :: !HasAt(q, k, Delimiter(tag))
    ensures WellFormedDollarText(q[..e])
  {
    hide HasAt, Occurs, IsTag;
    var body := q[n..e - n];
    DelimiterLength(tag);
    hide Delimiter;
    CutAtDelimiters(q, n, e, Delimiter(tag));
    FirstRepetition(q, n, e, tag, body);
    assert DollarQuotes(tag, body) && q[..e] == DollarQuoted(tag, body);
  }

  lemma DelimiterLength(tag: string)
    ensures |Delimiter(tag)| == |tag| + 2
  {
  }

  lemma ReadDelimiter(q: string)
    requires q != "" && DelimiterEnd(q, 0).Some?
    ensures var n := DelimiterEnd(q, 0).value; q[0..n] == Delimiter(q[1..n - 1]) && IsTag(q[1..n - 1])
  {
    var n := DelimiterEnd(q, 0).value;
    TagEndMeans(q, 1);
    assert q[0..n] == [q[0]] + q[1..n - 1] + [q[n - 1]];
  }

  lemma CutAtDelimiters(q: string, n: nat, e: nat, d: string)
    requires |d| == n && 2 * n <= e <= |q| && q[0..n] == d && HasAt(q, e - n, d)
    ensures q[..e] == d + q[n..e - n] + d && q[n..e] == q[n..e - n] + d
  {
    assert q[e - n..e] == d;
  }

  lemma FirstRepetition(q: string, n: nat, e: nat, tag: string, body: string)
    requires n == |tag| + 2 && 2 * n <= e <= |q| && q[n..e] == body + Delimiter(tag)
    requires forall k | n <= k < e - n :: !HasAt(q, k, Delimiter(tag))
    ensures !Occurs(Delimiter(tag), body + "$" + tag)
  {
    var inner := body + "$" + tag;
    assert inner == (body + Delimiter(tag))[..|inner|] == q[n..n + |inner|];
    forall k | 0 <= k <= |inner| ensures !HasAt(inner, k, Delimiter(tag)) {
      if k + n <= |inner| {
        HasAtWithin(q, n, inner, n + k, Delimiter(tag));
      }
    }
  }

  lemma ReadSymbol(q: string)
    requires q != "" && KindAt(q, 0) == Symbol
    ensures WellFormed(Lexeme(Symbol, q[..1])) && Separated(Lexeme(Symbol, q[..1]), q[1..])
  {
    TagOpens(q);
  }

  /** Every lexeme that is read is well formed, and what follows does not run into it. */
  lemma ReadIsWellFormed(q: string)
    requires q != "" && EndAt(q, 0).Some?
    ensures WellFormed(LexemeAt(q, 0)) && Separated(LexemeAt(q, 0), q[EndAt(q, 0).value..])
  {
    var e := EndAt(q, 0).value;
    match KindAt(q, 0) {
      case LineComment =>
        LineEndMeans(q, 2);
        assert q[0..e][..2] == "--";
      case BlockComment => ReadBlockComment(q);
      case Text =>
        var us := TextEndMeans(q, 1);
        assert q[0..e] == QuotedText(us);
      case Identifier =>
        var us := IdentifierEndMeans(q, 1);
        assert q[0..e] == QuotedIdentifier(us);
      case DollarText => ReadDollarText(q);
      case Semicolon =>
      case Blank =>
      case Symbol => ReadSymbol(q);
    }
  }

  // ----- The grammar's answer is the one reading of a text -----

  lemma LexStep(q: string)
    requires q != ""
    ensures Lex(q) == match EndAt(q, 0) case None => None case Some(e) => Append([LexemeAt(q, 0)], Lex(q[e..]))
  {
    if EndAt(q, 0).Some? {
      var e := EndAt(q, 0).value;
      LexShift(q, e, q[e..], 0);
    }
  }

  lemma {:induction false} ReadingIsLexed(ls: seq<Lexeme>)
    requires Reads(ls)
    ensures Lex(Texts(ls)) == Some(ls)
  {
    if ls != [] {
      var rest := Texts(ls[1..]);
      LexemeIsRead(ls[0], rest);
      LexStep(ls[0].text + rest);
      assert (ls[0].text + rest)[|ls[0].text|..] == rest;
      ReadingIsLexed(ls[1..]);
      assert [ls[0]] + ls[1..] == ls;
    }
  }

  lemma {:induction false} LexedIsReading(q: string)
    requires Lex(q).Some?
    ensures Reads(Lex(q).value)
    decreases |q|
  {
    if q != "" {
      LexStep(q);
      var e := EndAt(q, 0).value;
      ReadIsWellFormed(q);
      LexedIsReading(q[e..]);
      LexemesConcatenateBack(q[e..]);
      assert Lex(q).value[1..] == Lex(q[e..]).value;
    }
  }

  /**
   A text lexes to a sequence of lexemes exactly when that sequence spells it out of well-formed lexemes none of
   which runs into what follows.
   */
  lemma LexIsTheReading(q: string, ls: seq<Lexeme>)
    ensures Lex(q) == Some(ls) <==> Texts(ls) == q && Reads(ls)
  {
    if Lex(q) == Some(ls) {
      LexedIsReading(q);
      LexemesConcatenateBack(q);
    }
    if Reads(ls) {
      ReadingIsLexed(ls);
    }
  }

  /** A text is rejected exactly when nothing reads it. */
  lemma RejectedExactlyWhenUnreadable(q: string)
    ensures Lex(q).None? <==> !exists ls :: Texts(ls) == q && Reads(ls)
  {
    if Lex(q).Some? {
      LexIsTheReading(q, Lex(q).value);
    }
    forall ls | Texts(ls) == q && Reads(ls) ensures Lex(q).Some? {
      LexIsTheReading(q, ls);
    }
  }

  lemma OneLexeme(l: Lexeme)
    requires WellFormed(l) && l.kind != Semicolon
    ensures Lex(l.text) == Some([l]) && StatementCount(l.text) == Some(if IsToken(l) then 1 else 0)
  {
    assert Texts([l]) == l.text + Texts([l][1..]) == l.text;
    assert Separated(l, "");
    ReadingIsLexed([l]);
    assert l in [l];
    WithoutSemicolon([l]);
  }

  /**
   A quoted text is one lexeme, whatever it holds: plain bytes, doubled quotes, and escaped bytes, quotes and
   semicolons among them.
   */
  lemma QuotedTextIsOneLexeme(us: seq<Unit>)
    requires Spells(us, '\'', true)
    ensures Lex(QuotedText(us)) == Some([Lexeme(Text, QuotedText(us))])
    ensures StatementCount(QuotedText(us)) == Some(1)
  {
    OneLexeme(Lexeme(Text, QuotedText(us)));
  }

  lemma QuotedIdentifierIsOneLexeme(us: seq<Unit>)
    requires Spells(us, '"', false)
    ensures Lex(QuotedIdentifier(us)) == Some([Lexeme(Identifier, QuotedIdentifier(us))])
    ensures StatementCount(QuotedIdentifier(us)) == Some(1)
  {
    OneLexeme(Lexeme(Identifier, QuotedIdentifier(us)));
  }

  lemma DollarQuotedIsOneLexeme(tag: string, body: string)
    requires DollarQuotes(tag, body)
    ensures Lex(DollarQuoted(tag, body)) == Some([Lexeme(DollarText, DollarQuoted(tag, body))])
    ensures StatementCount(DollarQuoted(tag, body)) == Some(1)
  {
    OneLexeme(Lexeme(DollarText, DollarQuoted(tag, body)));
  }

  /** A comment is no statement. */
  lemma CommentIsOneLexeme(text: string, kind: Kind)
    requires kind in {LineComment, BlockComment} && WellFormed(Lexeme(kind, text))
    ensures Lex(text) == Some([Lexeme(kind, text)]) && StatementCount(text) == Some(0)
  {
    OneLexeme(Lexeme(kind, text));
  }

  // ----- Statements -----

  predicate HasSemicolon(ls: seq<Lexeme>) {
    exists l :: l in ls && l.kind == Semicolon
  }

  /** Lexemes that no semicolon cuts are one statement, if there is a token among them. */
  lemma {:induction false} WithoutSemicolon(ls: seq<Lexeme>)
    requires !HasSemicolon(ls)
    ensures Pieces(ls) == [ls] && Statements(ls) == if HasToken(ls) then 1 else 0
  {
    if ls != [] {
      assert ls[0] in ls;
      forall l | l in ls[1..] ensures l.kind != Semicolon {
        assert l in ls;
      }
      WithoutSemicolon(ls[1..]);
      assert [ls[0]] + ls[1..] == ls;
    }
    assert NonBlank([ls]) == (if HasToken(ls) then 1 else 0) + NonBlank([ls][1..]);
  }

  /** A text holds no statement exactly when all that it holds is comments, white space and semicolons. */
  lemma {:induction false} NoTokenNoStatement(ls: seq<Lexeme>)
    ensures Statements(ls) == 0 <==> !HasToken(ls)
  {
    if ls == [] {
      WithoutSemicolon(ls);
    } else {
      NoTokenNoStatement(ls[1..]);
      assert ls == [ls[0]] + ls[1..];
      assert HasToken(ls) <==> IsToken(ls[0]) || HasToken(ls[1..]);
      var ps := Pieces(ls[1..]);
      if ls[0].kind == Semicolon {
        assert ([[]] + ps)[1..] == ps;
      } else {
        var first := [ls[0]] + ps[0];
        assert ([first] + ps[1..])[1..] == ps[1..];
        assert forall l :: l in first <==> l == ls[0] || l in ps[0];
        assert HasToken(first) <==> IsToken(ls[0]) || HasToken(ps[0]);
      }
    }
  }

  /** The count is the statements of whatever reads the text, and it fails exactly when nothing does. */
  lemma CountIsOfTheReading(q: string)
    ensures forall ls | Texts(ls) == q && Reads(ls) :: StatementCount(q) == Some(Statements(ls))
    ensures StatementCount(q).None? <==> !exists ls :: Texts(ls) == q && Reads(ls)
  {
    RejectedExactlyWhenUnreadable(q);
    forall ls | Texts(ls) == q && Reads(ls) ensures StatementCount(q) == Some(Statements(ls)) {
      LexIsTheReading(q, ls);
    }
  }
}
