/**
 Printing SQL literals and the WHERE clause of a primary key, and an exact reader for them:
 MySQL string literals with backslash escapes and doubled quotes.
 */
module SqlLiterals {
  import opened Text

  datatype Value = Null | Bool(b: bool) | Int(n: int) | Str(text: string)

  function IntText(n: int): string {
    if n < 0 then "-" + Digits(-n) else Digits(n)
  }

  function EscapeText(text: string): string {
    ReplaceChar(ReplaceChar(text, '\\', "\\\\"), '\'', "\\'")
  }

  function SqlLit(value: Value): string {
    match value
    case Null => "NULL"
    case Bool(b) => if b then "1" else "0"
    case Int(n) => IntText(n)
    case Str(text) => "'" + EscapeText(text) + "'"
  }

  /** What a database reads back: a boolean was printed as a number. */
  function Stored(value: Value): Value {
    match value
    case Bool(b) => Int(if b then 1 else 0)
    case _ => value
  }

  // ----- The two replacements escape character by character -----

  function EscapedChar(c: char): string {
    if c == '\\' then "\\\\" else if c == '\'' then "\\'" else [c]
  }

  function Escaped(text: string): string {
    if text == "" then "" else EscapedChar(text[0]) + Escaped(text[1..])
  }

  lemma {:induction false} ReplacementsEscape(text: string)
    ensures EscapeText(text) == Escaped(text)
  {
    if text != "" {
      var first := if text[0] == '\\' then "\\\\" else [text[0]];
      ReplaceConcat(first, ReplaceChar(text[1..], '\\', "\\\\"), '\'', "\\'");
      if text[0] == '\'' {
        assert ReplaceChar("'", '\'', "\\'") == "\\'" + ReplaceChar("", '\'', "\\'");
      } else {
        ReplaceAbsent(first, '\'', "\\'");
      }
      ReplacementsEscape(text[1..]);
    }
  }

  // ----- Reading a literal -----

  /** The character an escape sequence stands for; `\%` and `\_` keep their backslash. */
  function Unescaped(c: char): string {
    if c == '0' then "\0"
    else if c == 'b' then "\U{8}"
    else if c == 'n' then "\n"
    else if c == 'r' then "\r"
    else if c == 't' then "\t"
    else if c == 'Z' then "\U{1A}"
    else if c == '%' || c == '_' then ['\\', c]
    else [c]
  }

  /** The text up to the closing quote, and what follows that quote. */
  function ReadQuoted(s: string): (r: Option<(string, string)>)
    ensures r.Some? ==> |r.value.1| < |s|
  {
    if s == "" then None
    else if s[0] == '\'' && (|s| == 1 || s[1] != '\'') then Some(("", s[1..]))
    else if s[0] == '\'' then Prepend("'", ReadQuoted(s[2..]))
    else if s[0] != '\\' then Prepend([s[0]], ReadQuoted(s[1..]))
    else if |s| == 1 then None
    else Prepend(Unescaped(s[1]), ReadQuoted(s[2..]))
  }

  function Prepend(front: string, r: Option<(string, string)>): Option<(string, string)> {
    match r case None => None case Some((text, rest)) => Some((front + text, rest))
  }

  predicate IsDigit(c: char) {
    '0' <= c <= '9'
  }

  /** The number whose digits go on at the front of `s`, given what was read so far. */
  function ReadDigits(s: string, soFar: nat): (r: (nat, string))
    ensures |r.1| <= |s|
  {
    if s != "" && IsDigit(s[0]) then ReadDigits(s[1..], soFar * 10 + (s[0] as int - '0' as int)) else (soFar, s)
  }

  /** One literal at the front of `s`, and what follows it. */
  function ReadLiteral(s: string): (r: Option<(Value, string)>)
    ensures r.Some? ==> |r.value.1| < |s|
  {
    if s == "" then None
    else if s[0] == '\'' then
      match ReadQuoted(s[1..]) case None => None case Some((text, rest)) => Some((Str(text), rest))
    else if "NULL" <= s then Some((Null, s[4..]))
    else if IsDigit(s[0]) then
      assert ReadDigits(s, 0) == ReadDigits(s[1..], s[0] as int - '0' as int);
      var (n, rest) := ReadDigits(s, 0);
      Some((Int(n), rest))
    else if |s| > 1 && s[0] == '-' && IsDigit(s[1]) then
      var (n, rest) := ReadDigits(s[1..], 0);
      Some((Int(0 - n), rest))
    else None
  }

  // ----- Reading back what was printed -----

  /** The body and the closing quote are read back exactly when no further quote follows. */
  lemma {:induction false} QuotedReadsBack(text: string, rest: string)
    ensures ReadQuoted(Escaped(text) + ("'" + rest)) == Some((text, rest)) <==> rest == "" || rest[0] != '\''
  {
    if text == "" {
      assert Escaped(text) + ("'" + rest) == "'" + rest;
      assert ("'" + rest)[1..] == rest;
    } else {
      var later := Escaped(text[1..]) + ("'" + rest);
      QuotedReadsBack(text[1..], rest);
      assert Escaped(text) + ("'" + rest) == EscapedChar(text[0]) + later;
      OneEscapedChar(text[0], later);
      PrependIsInjective([text[0]], ReadQuoted(later), text[1..], rest);
      assert [text[0]] + text[1..] == text;
    }
  }

  lemma PrependIsInjective(front: string, r: Option<(string, string)>, text: string, rest: string)
    ensures Prepend(front, r) == Some((front + text, rest)) <==> r == Some((text, rest))
  {
    if r.Some? {
      assert (front + r.value.0)[|front|..] == r.value.0 && (front + text)[|front|..] == text;
    }
  }

  lemma OneEscapedChar(c: char, later: string)
    ensures ReadQuoted(EscapedChar(c) + later) == Prepend([c], ReadQuoted(later))
  {
    var s := EscapedChar(c) + later;
    assert s[|EscapedChar(c)|..] == later;
    assert s[0] == EscapedChar(c)[0];
  }

  function Pow10(k: nat): nat {
    if k == 0 then 1 else 10 * Pow10(k - 1)
  }

  lemma {:induction false} DigitsReadBack(n: nat, rest: string, soFar: nat)
    ensures ReadDigits(Digits(n) + rest, soFar) == ReadDigits(rest, soFar * Pow10(|Digits(n)|) + n)
    decreases n
  {
    if n < 10 {
      assert (Digits(n) + rest)[1..] == rest;
      assert Pow10(1) == 10;
    } else {
      var last := ['0' + (n % 10) as char];
      assert Digits(n) + rest == Digits(n / 10) + (last + rest);
      DigitsReadBack(n / 10, last + rest, soFar);
      assert (last + rest)[1..] == rest;
      TimesTen(soFar, Pow10(|Digits(n / 10)|), n);
    }
  }

  lemma TimesTen(a: nat, p: nat, n: nat)
    ensures (a * p + n / 10) * 10 + n % 10 == a * (10 * p) + n
  {
    assert a * (10 * p) == (a * p) * 10;
  }

  predicate EndsLiteral(rest: string) {
    rest == "" || (rest[0] != '\'' && !IsDigit(rest[0]))
  }

  lemma NumberReadsBack(n: nat, rest: string)
    requires EndsLiteral(rest)
    ensures ReadDigits(Digits(n) + rest, 0) == (n, rest)
    ensures IsDigit((Digits(n) + rest)[0])
  {
    DigitsReadBack(n, rest, 0);
    assert 0 * Pow10(|Digits(n)|) == 0;
    assert (Digits(n) + rest)[0] == Digits(n)[0];
  }

  lemma ReadsNumber(s: string, n: nat, rest: string)
    requires s != "" && IsDigit(s[0]) && ReadDigits(s, 0) == (n, rest)
    ensures ReadLiteral(s) == Some((Int(n), rest))
  {
    assert "NULL"[0] == 'N';
  }

  lemma ReadsNegative(s: string, n: nat, rest: string)
    requires |s| > 1 && s[0] == '-' && IsDigit(s[1]) && ReadDigits(s[1..], 0) == (n, rest)
    ensures ReadLiteral(s) == Some((Int(0 - n), rest))
  {
    assert "NULL"[0] == 'N';
  }

  lemma IntReadsBack(n: int, rest: string)
    requires EndsLiteral(rest)
    ensures ReadLiteral(IntText(n) + rest) == Some((Int(n), rest))
  {
    if n < 0 {
      var s := "-" + (Digits(-n) + rest);
      assert IntText(n) + rest == s;
      NumberReadsBack(-n, rest);
      assert s[1..] == Digits(-n) + rest;
      ReadsNegative(s, -n, rest);
    } else {
      NumberReadsBack(n, rest);
      ReadsNumber(Digits(n) + rest, n, rest);
    }
  }

  lemma TextReadsBack(text: string, rest: string)
    requires EndsLiteral(rest)
    ensures ReadLiteral(SqlLit(Str(text)) + rest) == Some((Str(text), rest))
  {
    hide ReadQuoted, Escaped, EscapeText;
    ReplacementsEscape(text);
    QuotedReadsBack(text, rest);
    QuotedConcat(Escaped(text), rest);
    ReadsQuoted(Escaped(text) + ("'" + rest), text, rest);
  }

  lemma QuotedConcat(body: string, rest: string)
    ensures "'" + body + "'" + rest == "'" + (body + ("'" + rest))
  {}

  lemma ReadsQuoted(s: string, text: string, rest: string)
    requires ReadQuoted(s) == Some((text, rest))
    ensures ReadLiteral("'" + s) == Some((Str(text), rest))
  {
    hide ReadQuoted, ReadDigits;
    assert ("'" + s)[1..] == s;
  }

  /** Every printed literal is consumed exactly and read back as the stored value. */
  lemma LiteralReadsBack(value: Value, rest: string)
    requires EndsLiteral(rest)
    ensures ReadLiteral(SqlLit(value) + rest) == Some((Stored(value), rest))
  {
    match value
    case Null =>
      assert "NULL" <= "NULL" + rest && ("NULL" + rest)[4..] == rest;
    case Bool(b) =>
      IntReadsBack(if b then 1 else 0, rest);
    case Int(n) =>
      IntReadsBack(n, rest);
    case Str(text) =>
      TextReadsBack(text, rest);
  }

  // ----- The WHERE clause of a primary key -----

  datatype WhereError = NoPrimaryKey | MissingKeys(names: seq<string>) | InvalidIdentifier(name: string)

  predicate IsNameStart(c: char) {
    'A' <= c <= 'Z' || 'a' <= c <= 'z' || c == '_'
  }

  predicate IsIdentifier(name: string) {
    && 1 <= |name| <= 64 && IsNameStart(name[0])
    && forall i :: 0 <= i < |name| ==> IsNameStart(name[i]) || IsDigit(name[i])
  }

  function MissingFrom(keys: map<string, Value>, primary: seq<string>): seq<string> {
    if primary == [] then []
    else
      var missing := MissingFrom(keys, primary[..|primary| - 1]);
      if primary[|primary| - 1] in keys then missing else missing + [primary[|primary| - 1]]
  }

  /** Quote one identifier; white space around it is dropped. */
  function QuoteIdentifier(name: string): Result<string, WhereError> {
    if IsIdentifier(Strip(name)) then Ok("`" + Strip(name) + "`") else Err(InvalidIdentifier(name))
  }

  function Conjuncts(keys: map<string, Value>, primary: seq<string>): (r: Result<seq<string>, WhereError>)
    requires forall name :: name in primary ==> name in keys
    ensures r.Ok? ==> |r.value| == |primary|
  {
    if primary == [] then Ok([])
    else
      match QuoteIdentifier(primary[0])
      case Err(e) => Err(e)
      case Ok(quoted) =>
        match Conjuncts(keys, primary[1..])
        case Err(e) => Err(e)
        case Ok(rest) => Ok([quoted + "=" + SqlLit(keys[primary[0]])] + rest)
  }

  function RowWhere(keys: map<string, Value>, primary: seq<string>): Result<string, WhereError> {
    if primary == [] then Err(NoPrimaryKey)
    else if MissingFrom(keys, primary) != [] then Err(MissingKeys(MissingFrom(keys, primary)))
    else
      NothingMissing(keys, primary);
      match Conjuncts(keys, primary)
      case Err(e) => Err(e)
      case Ok(parts) => Ok(Join(parts, AND))
  }

  lemma {:induction false} NothingMissing(keys: map<string, Value>, primary: seq<string>)
    ensures MissingFrom(keys, primary) == [] <==> forall name :: name in primary ==> name in keys
  {
    if primary != [] {
      var front, last := primary[..|primary| - 1], primary[|primary| - 1];
      NothingMissing(keys, front);
      LastOrBefore(primary);
      if name :| name in front && name !in keys {
        assert name in primary;
      }
    }
  }

  lemma LastOrBefore(names: seq<string>)
    requires names != []
    ensures forall name :: name in names <==> name in names[..|names| - 1] || name == names[|names| - 1]
  {
    assert names == names[..|names| - 1] + [names[|names| - 1]];
  }

  /** The name up to the next back quote, and what follows that quote. */
  function ReadName(s: string): (r: Option<(string, string)>)
    ensures r.Some? ==> |r.value.1| < |s|
  {
    if s == "" then None
    else if s[0] == '`' then Some(("", s[1..]))
    else Prepend([s[0]], ReadName(s[1..]))
  }

  /** One `` `name`=literal `` at the front of `s`, and what follows it. */
  function ReadComparison(s: string): (r: Option<((string, Value), string)>)
    ensures r.Some? ==> |r.value.1| < |s|
  {
    if s == "" || s[0] != '`' then None
    else
      match ReadName(s[1..])
      case None => None
      case Some((name, rest)) =>
        if rest == "" || rest[0] != '=' then None
        else
          match ReadLiteral(rest[1..]) case None => None case Some((value, after)) => Some(((name, value), after))
  }

  const AND := " AND "

  /** Comparisons joined by ` AND ` up to the end of the text. */
  function ParseWhere(s: string): Option<seq<(string, Value)>>
    decreases |s|
  {
    match ReadComparison(s)
    case None => None
    case Some((one, rest)) =>
      if rest == "" then Some([one])
      else if !(AND <= rest) then None
      else match ParseWhere(rest[|AND|..]) case None => None case Some(more) => Some([one] + more)
  }

  function Columns(keys: map<string, Value>, primary: seq<string>): seq<(string, Value)>
    requires forall name :: name in primary ==> name in keys
  {
    if primary == [] then []
    else [(Strip(primary[0]), Stored(keys[primary[0]]))] + Columns(keys, primary[1..])
  }

  lemma {:induction false} NameReadsBack(name: string, rest: string)
    requires '`' !in name
    ensures ReadName(name + ("`" + rest)) == Some((name, rest))
  {
    if name == "" {
      assert name + ("`" + rest) == "`" + rest && ("`" + rest)[1..] == rest;
    } else {
      assert (name + ("`" + rest))[1..] == name[1..] + ("`" + rest);
      NameReadsBack(name[1..], rest);
      assert [name[0]] + name[1..] == name;
    }
  }

  lemma ComparisonReadsBack(name: string, value: Value, rest: string)
    requires '`' !in name && EndsLiteral(rest)
    ensures ReadComparison("`" + name + "`" + "=" + SqlLit(value) + rest) == Some(((name, Stored(value)), rest))
  {
    var lit := SqlLit(value) + rest;
    var tail := name + ("`" + ("=" + lit));
    assert "`" + name + "`" + "=" + SqlLit(value) + rest == "`" + tail;
    assert ("`" + tail)[1..] == tail;
    NameReadsBack(name, "=" + lit);
    assert ("=" + lit)[1..] == lit;
    LiteralReadsBack(value, rest);
  }

  lemma OneConjunct(keys: map<string, Value>, primary: seq<string>)
    requires primary != [] && forall name :: name in primary ==> name in keys
    requires Conjuncts(keys, primary).Ok?
    ensures var parts, name := Conjuncts(keys, primary).value, Strip(primary[0]);
            && '`' !in name && parts[0] == "`" + name + "`" + "=" + SqlLit(keys[primary[0]])
            && Conjuncts(keys, primary[1..]).Ok? && parts[1..] == Conjuncts(keys, primary[1..]).value
  {
    hide SqlLit, Strip, IsIdentifier;
    IdentifierIsPlain(Strip(primary[0]));
  }

  lemma IdentifierIsPlain(name: string)
    ensures IsIdentifier(name) ==> '`' !in name
  {}

  lemma LastComparison(s: string, one: (string, Value))
    requires ReadComparison(s) == Some((one, ""))
    ensures ParseWhere(s) == Some([one])
  {}

  lemma NextComparison(s: string, one: (string, Value), later: string, more: seq<(string, Value)>)
    requires ReadComparison(s) == Some((one, AND + later)) && ParseWhere(later) == Some(more)
    ensures ParseWhere(s) == Some([one] + more)
  {
    assert (AND + later)[|AND|..] == later;
  }

  lemma OneParses(keys: map<string, Value>, primary: seq<string>)
    requires |primary| == 1 && primary[0] in keys && Conjuncts(keys, primary).Ok?
    ensures ParseWhere(Join(Conjuncts(keys, primary).value, AND)) == Some(Columns(keys, primary))
  {
    hide ReadComparison, ReadName, QuoteIdentifier, SqlLit, Stored;
    var part := Conjuncts(keys, primary).value[0];
    var one := (Strip(primary[0]), Stored(keys[primary[0]]));
    OneConjunct(keys, primary);
    assert part + "" == part;
    ComparisonReadsBack(Strip(primary[0]), keys[primary[0]], "");
    LastComparison(part, one);
    assert primary[1..] == [];
    assert Columns(keys, primary) == [one];
  }

  lemma AndEndsLiteral(later: string)
    ensures EndsLiteral(AND + later)
  {
    assert AND[0] == ' ';
  }

  lemma JoinedHead(part: string, rest: seq<string>)
    requires rest != []
    ensures Join([part] + rest, AND) == part + (AND + Join(rest, AND))
  {
    assert ([part] + rest)[1..] == rest;
  }

  lemma {:induction false} JoinedConjunctsParse(keys: map<string, Value>, primary: seq<string>)
    requires primary != [] && forall name :: name in primary ==> name in keys
    requires Conjuncts(keys, primary).Ok?
    ensures ParseWhere(Join(Conjuncts(keys, primary).value, AND)) == Some(Columns(keys, primary))
  {
    if |primary| == 1 {
      OneParses(keys, primary);
    } else {
      OneConjunct(keys, primary);
      assert Columns(keys, primary) == [(Strip(primary[0]), Stored(keys[primary[0]]))] + Columns(keys, primary[1..]);
      hide ParseWhere, ReadComparison, ReadName, Conjuncts, QuoteIdentifier, SqlLit, Stored, Join, Columns, Strip;
      var parts := Conjuncts(keys, primary).value;
      var one := (Strip(primary[0]), Stored(keys[primary[0]]));
      var later := Join(parts[1..], AND);
      JoinedConjunctsParse(keys, primary[1..]);
      assert parts == [parts[0]] + parts[1..];
      JoinedHead(parts[0], parts[1..]);
      AndEndsLiteral(later);
      ComparisonReadsBack(Strip(primary[0]), keys[primary[0]], AND + later);
      NextComparison(Join(parts, AND), one, later, Columns(keys, primary[1..]));
    }
  }

  /** The printed conjunction is read back as the same list of columns and values. */
  lemma RowWhereParsesBack(keys: map<string, Value>, primary: seq<string>)
    ensures RowWhere(keys, primary).Ok? <==>
              primary != [] && forall name :: name in primary ==> name in keys && IsIdentifier(Strip(name))
    ensures RowWhere(keys, primary).Ok? ==>
              && (forall name :: name in primary ==> name in keys)
              && ParseWhere(RowWhere(keys, primary).value) == Some(Columns(keys, primary))
  {
    NothingMissing(keys, primary);
    if primary != [] && MissingFrom(keys, primary) == [] {
      ConjunctsOkIff(keys, primary);
      if RowWhere(keys, primary).Ok? {
        JoinedConjunctsParse(keys, primary);
      }
    }
  }

  ghost predicate IsLetter(c: char) {
    var code := c as int;
    65 <= code <= 90 || 97 <= code <= 122 || code == 95
  }

  ghost predicate IsLetterOrDigit(c: char) {
    IsLetter(c) || 48 <= c as int <= 57
  }

  /** A column name is a letter or underscore and at most sixty-three letters, underscores or digits. */
  lemma IdentifierIff(name: string)
    ensures IsIdentifier(name) <==>
              && name != "" && IsLetter(name[0]) && |name[1..]| <= 63
              && forall i :: 0 <= i < |name[1..]| ==> IsLetterOrDigit(name[1..][i])
  {
    if name != "" && forall i :: 0 <= i < |name[1..]| ==> IsLetterOrDigit(name[1..][i]) {
      forall i | 1 <= i < |name|
        ensures IsLetterOrDigit(name[i])
      {
        assert name[1..][i - 1] == name[i];
      }
    }
  }

  /** Which columns of the key are reported missing, one by one and in order. */
  lemma {:induction false} MissingSplits(keys: map<string, Value>, a: seq<string>, b: seq<string>, name: string)
    ensures MissingFrom(keys, [name]) == if name in keys then [] else [name]
    ensures MissingFrom(keys, a + b) == MissingFrom(keys, a) + MissingFrom(keys, b)
  {
    assert [name][..0] == [];
    if b == [] {
      assert a + b == a;
    } else {
      assert (a + b)[..|a + b| - 1] == a + b[..|b| - 1];
      MissingSplits(keys, a, b[..|b| - 1], name);
    }
  }

  /** Why a condition is refused: there is no key, or columns are missing, or one is no identifier. */
  lemma RefusedWhere(keys: map<string, Value>, primary: seq<string>)
    ensures primary == [] ==> RowWhere(keys, primary) == Err(NoPrimaryKey)
    ensures (exists name :: name in primary && name !in keys) ==>
              RowWhere(keys, primary) == Err(MissingKeys(MissingFrom(keys, primary)))
  {
    NothingMissing(keys, primary);
  }

  /** The text for one column, and for several the comparisons in order with ` AND ` between them. */
  lemma WhereJoins(keys: map<string, Value>, a: seq<string>, b: seq<string>, name: string)
    requires RowWhere(keys, a).Ok? && RowWhere(keys, b).Ok?
    ensures name in keys && IsIdentifier(Strip(name)) ==>
              RowWhere(keys, [name]) == Ok("`" + Strip(name) + "`" + "=" + SqlLit(keys[name]))
    ensures RowWhere(keys, a + b) == Ok(RowWhere(keys, a).value + " AND " + RowWhere(keys, b).value)
  {
    hide SqlLit, Strip, IsIdentifier;
    RowWhereParsesBack(keys, a);
    RowWhereParsesBack(keys, b);
    MissingSplits(keys, a, b, name);
    NothingMissing(keys, a);
    NothingMissing(keys, b);
    NothingMissing(keys, a + b);
    ConjunctsSplit(keys, a, b);
    JoinSplits(Conjuncts(keys, a).value, Conjuncts(keys, b).value, AND);
    hide Join, MissingFrom;
    if name in keys && IsIdentifier(Strip(name)) {
      OneWhere(keys, name);
    }
  }

  lemma OneWhere(keys: map<string, Value>, name: string)
    requires name in keys && IsIdentifier(Strip(name))
    ensures RowWhere(keys, [name]) == Ok("`" + Strip(name) + "`" + "=" + SqlLit(keys[name]))
  {
    hide SqlLit, Strip, IsIdentifier;
    NothingMissing(keys, [name]);
    assert [name][1..] == [];
    var part := "`" + Strip(name) + "`" + "=" + SqlLit(keys[name]);
    assert Conjuncts(keys, [name][1..]) == Ok([]);
    assert [part] + [] == [part];
    assert Conjuncts(keys, [name]) == Ok([part]);
  }

  lemma {:induction false} ConjunctsSplit(keys: map<string, Value>, a: seq<string>, b: seq<string>)
    requires forall name :: name in a + b ==> name in keys
    requires Conjuncts(keys, a).Ok? && Conjuncts(keys, b).Ok?
    ensures Conjuncts(keys, a + b) == Ok(Conjuncts(keys, a).value + Conjuncts(keys, b).value)
  {
    hide QuoteIdentifier, SqlLit;
    if a == [] {
      assert a + b == b;
      assert [] + Conjuncts(keys, b).value == Conjuncts(keys, b).value;
    } else {
      assert (a + b)[1..] == a[1..] + b;
      ConjunctsSplit(keys, a[1..], b);
      assert (a + b)[0] == a[0];
      var rest, more := Conjuncts(keys, a[1..]).value, Conjuncts(keys, b).value;
      assert forall first: seq<string> :: (first + rest) + more == first + (rest + more);
    }
  }

  /** Only a negative number has a sign, and behind it stands its absolute value. */
  lemma OnlyNegativesAreSigned(n: int)
    ensures '-' in IntText(n) <==> n < 0
    ensures n < 0 ==> IntText(n) == "-" + IntText(-n)
  {}

  lemma {:induction false} ConjunctsOkIff(keys: map<string, Value>, primary: seq<string>)
    requires forall name :: name in primary ==> name in keys
    ensures Conjuncts(keys, primary).Ok? <==> forall name :: name in primary ==> IsIdentifier(Strip(name))
  {
    if primary != [] {
      ConjunctsOkIff(keys, primary[1..]);
      assert forall name :: name in primary <==> name == primary[0] || name in primary[1..];
      assert Conjuncts(keys, primary).Ok? <==> QuoteIdentifier(primary[0]).Ok? && Conjuncts(keys, primary[1..]).Ok?;
    }
  }
}
