/** The statement scanner that guards the SQL editor, proved against the lexical grammar. */
module SqlScanner {
  import opened Options
  import opened SqlGrammar
  import opened SqlLexemes

  const MAX_QUERY_BYTES := 64 * 1024

  /** What the scanner is inside of.  At most one of the program's five mode variables is ever set. */
  datatype Mode = Outside | InLineComment | InBlockComment | InDollar(delimiter: string) | InSingle | InDouble

  function ModeKind(mode: Mode): Kind
    requires mode != Outside
  {
    match mode
    case InLineComment => LineComment
    case InBlockComment => BlockComment
    case InDollar(_) => DollarText
    case InSingle => Text
    case InDouble => Identifier
  }

  predicate CarriesToken(mode: Mode) {
    mode.InDollar? || mode.InSingle? || mode.InDouble?
  }

  /** Where the construct that the scanner is inside of ends, seen from byte `i` of it. */
  function OpenEnd(query: string, i: nat, mode: Mode): Option<nat>
    requires i <= |query| && mode != Outside && (mode.InDollar? ==> mode.delimiter != "")
  {
    match mode
    case InLineComment => Some(LineEnd(query, i))
    case InBlockComment => BlockEnd(query, i)
    case InDollar(delimiter) => DollarEnd(query, i, delimiter)
    case InSingle => TextEnd(query, i)
    case InDouble => IdentifierEnd(query, i)
  }

  /** The tag ends at its first dollar sign, if only tag bytes stand before that. */
  lemma {:induction false} TagEndIsFirstDollar(q: string, i: nat, k: nat)
    requires i <= k <= |q| && forall j | i <= j < k :: q[j] != '$'
    ensures k < |q| && q[k] == '$' && (forall j | i <= j < k :: IsTagChar(q[j])) ==> TagEnd(q, i) == Some(k + 1)
    ensures (exists j | i <= j < k :: !IsTagChar(q[j])) || k == |q| ==> TagEnd(q, i) == None
    decreases k - i
  {
    if i < k {
      TagEndIsFirstDollar(q, i + 1, k);
    }
  }

  /** The delimiter that a text opens with, or the empty string. */
  method ParseDollarDelimiter(value: string) returns (d: string)
    ensures d == if value == "" || DelimiterEnd(value, 0) == None then "" else value[..DelimiterEnd(value, 0).value]
  {
    if |value| < 2 || value[0] != '$' {
      return "";
    }
    var i := 1;
    while i < |value|
      invariant 1 <= i <= |value|
      invariant forall k | 1 <= k < i :: value[k] != '$'
    {
      if value[i] == '$' {
        TagEndIsFirstDollar(value, 1, i);
        var j := 1;
        while j < i
          invariant 1 <= j <= i
          invariant forall k | 1 <= k < j :: IsTagChar(value[k])
        {
          if !IsTagChar(value[j]) {
            return "";
          }
          j := j + 1;
        }
        return value[..i + 1];
      }
      if value[i] == '\n' || value[i] == '\r' {
        TagEndIsFirstDollar(value, 1, i + 1);
        return "";
      }
      i := i + 1;
    }
    TagEndIsFirstDollar(value, 1, i);
    return "";
  }

  /** The parser's answer on what is left of the query is the delimiter that the grammar sees at byte `i`. */
  method DelimiterAt(query: string, i: nat) returns (d: string)
    requires i < |query|
    ensures d == match DelimiterEnd(query, i) case None => "" case Some(e) => query[i..e]
  {
    d := ParseDollarDelimiter(query[i..]);
    KindShift(query, i, query[i..], 0);
  }

  /**
   The scanner's state at byte `i`: the lexemes in `done` have been read and counted, and the next one
   begins at `start` and, if it is open, ends where the construct that the scanner is inside of ends.
   */
  ghost predicate At(query: string, done: seq<Lexeme>, start: nat, i: nat, mode: Mode, count: nat, hasToken: bool)
  {
    && start <= i <= |query|
    && Lex(query) == Append(done, LexFrom(query, start))
    && count == Ended(done)
    && hasToken == (CarriesToken(mode) || Pending(done))
    && (mode.InDollar? ==> mode.delimiter != "")
    && if mode == Outside then start == i else
         && start < i && KindAt(query, start) == ModeKind(mode)
         && EndAt(query, start) == OpenEnd(query, i, mode)
  }

  /** The lexeme that begins at `start` is over before byte `i`: it is read and counted. */
  lemma Close(query: string, done: seq<Lexeme>, start: nat, i: nat, count: nat, pending: bool)
    requires start < i <= |query| && EndAt(query, start) == Some(i)
    requires Lex(query) == Append(done, LexFrom(query, start)) && count == Ended(done) && pending == Pending(done)
    ensures var l := LexemeAt(query, start);
            if l.kind == Semicolon && pending then At(query, done + [l], i, i, Outside, count + 1, false)
            else At(query, done + [l], i, i, Outside, count, pending || IsToken(l))
  {
    var l := LexemeAt(query, start);
    AppendTwice(done, [l], LexFrom(query, i));
    CountOneMore(done, l);
  }

  lemma Finish(query: string, done: seq<Lexeme>, start: nat, mode: Mode, count: nat, hasToken: bool)
    requires At(query, done, start, |query|, mode, count, hasToken)
    decreases |query| - start
    ensures StatementCount(query) ==
            if mode == Outside || mode == InLineComment then Some(count + if hasToken then 1 else 0) else None
  {
    if mode == InLineComment {
      Close(query, done, start, |query|, count, hasToken);
      Finish(query, done + [LexemeAt(query, start)], |query|, Outside, count, hasToken);
    } else if mode == Outside {
      assert done + [] == done;
      StatementsAreEndedOrPending(done);
    }
  }

  /** One step of the scanner inside a construct: where it goes next, and whether the construct closed on the way. */
  method InsideStep(query: string, i: nat, mode: Mode) returns (next: nat, closed: bool)
    requires i < |query| && mode != Outside && (mode.InDollar? ==> mode.delimiter != "")
    ensures i < next <= |query|
    ensures OpenEnd(query, i, mode) == if closed then Some(next) else OpenEnd(query, next, mode)
  {
    var ch := query[i];
    next, closed := i + 1, false;
    match mode
    case InLineComment =>
      if ch == '\n' {
        closed := true;
      }
    case InBlockComment =>
      if ch == '*' && i + 1 < |query| && query[i + 1] == '/' {
        closed := true;
        next := i + 2;
      }
    case InDollar(delimiter) =>
      if HasAt(query, i, delimiter) {
        closed := true;
        next := i + |delimiter|;
      }
    case InSingle =>
      if ch == '\\' && i + 1 < |query| {
        next := i + 2;
      } else if ch == '\'' {
        if i + 1 < |query| && query[i + 1] == '\'' {
          next := i + 2;
        } else {
          closed := true;
        }
      }
    case InDouble =>
      if ch == '"' {
        if i + 1 < |query| && query[i + 1] == '"' {
          next := i + 2;
        } else {
          closed := true;
        }
      }
  }

  /** One step of the scanner outside every construct: what the next bytes open, or the one byte they are. */
  method OutsideStep(query: string, i: nat) returns (next: nat, mode: Mode)
    requires i < |query|
    ensures i < next <= |query| && (mode.InDollar? ==> mode.delimiter != "")
    ensures mode != Outside ==> KindAt(query, i) == ModeKind(mode) && EndAt(query, i) == OpenEnd(query, next, mode)
    ensures mode == Outside ==>
              && EndAt(query, i) == Some(next)
              && KindAt(query, i) == if query[i] == ';' then Semicolon else if IsSpace(query[i]) then Blank else Symbol
  {
    var ch := query[i];
    next, mode := i + 1, Outside;
    if ch == '-' && i + 1 < |query| && query[i + 1] == '-' {
      next, mode := i + 2, InLineComment;
    } else if ch == '/' && i + 1 < |query| && query[i + 1] == '*' {
      next, mode := i + 2, InBlockComment;
    } else if ch == '\'' {
      mode := InSingle;
    } else if ch == '"' {
      mode := InDouble;
    } else if ch == '$' {
      var delimiter := DelimiterAt(query, i);
      if delimiter != "" {
        next, mode := i + |delimiter|, InDollar(delimiter);
      }
    }
  }

  /** The scanner counts exactly the statements of the grammar and fails exactly when the text has no reading. */
  method CountSqlStatements(query: string) returns (r: Option<nat>)
    ensures r == StatementCount(query)
    ensures forall ls | Texts(ls) == query && Reads(ls) :: r == Some(Statements(ls))
    ensures r.None? <==> !exists ls :: Texts(ls) == query && Reads(ls)
  {
    CountIsOfTheReading(query);
    var count: nat := 0;
    var hasToken := false;
    var mode := Outside;

    ghost var done: seq<Lexeme> := [];  // the lexemes read so far
    ghost var start: nat := 0;          // where the lexeme being read begins
    assert Lex(query).Some? ==> [] + Lex(query).value == Lex(query).value;

    var i := 0;
    while i < |query|
      invariant At(query, done, start, i, mode, count, hasToken)
    {
      var ch := query[i];
      ghost var pending := Pending(done);

      if mode != Outside {
        var closed: bool;
        i, closed := InsideStep(query, i, mode);
        if closed {
          mode := Outside;
        }
      } else {
        i, mode := OutsideStep(query, i);
        if mode.InSingle? || mode.InDouble? || mode.InDollar? {
          hasToken := true;
        } else if mode == Outside && ch == ';' {
          if hasToken {
            count := count + 1;
            hasToken := false;
          }
        } else if mode == Outside && !IsSpace(ch) {
          hasToken := true;
        }
      }

      if mode == Outside {
        Close(query, done, start, i, Ended(done), pending);
        done, start := done + [LexemeAt(query, start)], i;
      }
    }

    Finish(query, done, start, mode, count, hasToken);
    if mode.InSingle? || mode.InDouble? || mode.InBlockComment? || mode.InDollar? {
      return None;
    }
    if hasToken {
      count := count + 1;
    }
    return Some(count);
  }

  datatype QueryVerdict = Accepted | TooLong | Unterminated | Missing | TooMany

  /** A query is accepted exactly when it fits the limit and holds one statement. */
  method ValidateSingleStatementQuery(query: string) returns (v: QueryVerdict)
    ensures v == Accepted <==> |query| <= MAX_QUERY_BYTES && StatementCount(query) == Some(1)
    ensures v == TooLong <==> |query| > MAX_QUERY_BYTES
    ensures v == Unterminated <==> |query| <= MAX_QUERY_BYTES && Lex(query).None?
    ensures v == Missing <==> |query| <= MAX_QUERY_BYTES && StatementCount(query) == Some(0)
  {
    if |query| > MAX_QUERY_BYTES {
      return TooLong;
    }
    var statementCount := CountSqlStatements(query);
    match statementCount
    case None => return Unterminated;
    case Some(n) =>
      if n == 0 {
        return Missing;
      }
      if n > 1 {
        return TooMany;
      }
      return Accepted;
  }
}
