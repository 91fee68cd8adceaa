/**
 The comment and literal stripper of the read-only Cypher check: an index-based scanner,
 proved against a grammar of comments, quoted text and plain characters that parses every
 string in exactly one way.
 */
module CypherStrip {
  import opened Wrappers

  // ----- the grammar -----

  /** A piece of quoted text: a character, a backslash escape, or the quote doubled. */
  datatype Unit = Char(c: char) | Escape(c: char) | Doubled

  /** How quoted text ends: with its quote, at the end of the query, or there with a lone backslash. */
  datatype Ending = Closed | Open | OpenBackslash

  datatype Token =
    | Plain(c: char)
    | LineComment(body: string)
    | BlockComment(body: string, closed: bool)
    | Quoted(quote: char, units: seq<Unit>, ending: Ending)

  predicate IsQuote(c: char) {
    c == '\'' || c == '"' || c == '`'
  }

  predicate IsNewline(c: char) {
    c == '\r' || c == '\n'
  }

  function UnitText(u: Unit, quote: char): string {
    match u
    case Char(c) => [c]
    case Escape(c) => ['\\', c]
    case Doubled => [quote, quote]
  }

  function UnitsText(us: seq<Unit>, quote: char): string {
    if us == [] then "" else UnitText(us[0], quote) + UnitsText(us[1..], quote)
  }

  function EndingText(e: Ending, quote: char): string {
    match e
    case Closed => [quote]
    case Open => ""
    case OpenBackslash => "\\"
  }

  function TokenText(t: Token): string {
    match t
    case Plain(c) => [c]
    case LineComment(body) => "//" + body
    case BlockComment(body, closed) => "/*" + body + if closed then "*/" else ""
    case Quoted(quote, units, ending) => [quote] + UnitsText(units, quote) + EndingText(ending, quote)
  }

  function Text(ts: seq<Token>): string {
    if ts == [] then "" else TokenText(ts[0]) + Text(ts[1..])
  }

  predicate UnitOk(u: Unit, quote: char) {
    match u
    case Char(c) => c != quote && (quote == '`' || c != '\\')
    case Escape(_) => quote != '`'
    case Doubled => true
  }

  ghost predicate NoBlockEnd(s: string) {
    forall i :: 0 <= i < |s| - 1 ==> !(s[i] == '*' && s[i + 1] == '/')
  }

  /** Whether a token may be followed by `rest`. */
  ghost predicate TokenOk(t: Token, rest: string) {
    match t
    case Plain(c) => c != '\'' && c != '"' && c != '`' && (c == '/' && rest != "" ==> rest[0] != '/' && rest[0] != '*')
    case LineComment(body) =>
      (forall c :: c in body ==> c != '\r' && c != '\n') && (rest != "" ==> rest[0] == '\r' || rest[0] == '\n')
    case BlockComment(body, closed) => NoBlockEnd(body) && (closed || rest == "")
    case Quoted(quote, units, ending) =>
      && (quote == '\'' || quote == '"' || quote == '`') && (forall u :: u in units ==> UnitOk(u, quote))
      && (match ending
          case Closed => rest != "" ==> rest[0] != quote
          case Open => rest == ""
          case OpenBackslash => rest == "" && quote != '`')
  }

  ghost predicate Valid(ts: seq<Token>) {
    ts != [] ==> TokenOk(ts[0], Text(ts[1..])) && Valid(ts[1..])
  }

  // ----- parsing -----

  function LineLength(s: string): (n: nat)
    ensures n <= |s|
  {
    if s == "" || IsNewline(s[0]) then 0 else 1 + LineLength(s[1..])
  }

  /** Where the first block end starts, or the length when there is none. */
  function BlockLength(s: string): (n: nat)
    ensures n + 2 <= |s| || n == |s|
  {
    if |s| < 2 then |s| else if s[0] == '*' && s[1] == '/' then 0 else 1 + BlockLength(s[1..])
  }

  /** The unit quoted text goes on with, if it goes on. */
  function NextUnit(s: string, quote: char): Option<Unit> {
    if s == "" then None
    else if s[0] == '\\' && quote != '`' then (if |s| == 1 then None else Some(Escape(s[1])))
    else if s[0] == quote then (if |s| > 1 && s[1] == quote then Some(Doubled) else None)
    else Some(Char(s[0]))
  }

  /** How quoted text ends where it does not go on. */
  function EndingAt(s: string, quote: char): Ending {
    if s == "" then Open else if s[0] == '\\' && quote != '`' then OpenBackslash else Closed
  }

  function UnitLength(u: Unit): (n: nat)
    ensures n == 1 || n == 2
  {
    if u.Char? then 1 else 2
  }

  lemma NextUnitFits(s: string, quote: char)
    ensures NextUnit(s, quote).Some? ==>
      var u := NextUnit(s, quote).value;
      UnitLength(u) <= |s| && UnitOk(u, quote) && s[..UnitLength(u)] == UnitText(u, quote)
  {
  }

  /** The units of the quoted text that starts after its quote. */
  function Units(s: string, quote: char): seq<Unit>
    decreases |s|
  {
    NextUnitFits(s, quote);
    var u := NextUnit(s, quote);
    if u.None? then [] else [u.value] + Units(s[UnitLength(u.value)..], quote)
  }

  /** What remains of a string after those units. */
  function Remainder(s: string, quote: char): (r: string)
    ensures |r| <= |s|
    decreases |s|
  {
    NextUnitFits(s, quote);
    var u := NextUnit(s, quote);
    if u.None? then s else Remainder(s[UnitLength(u.value)..], quote)
  }

  /** How many characters after the opening quote belong to the quoted text. */
  function SkipLength(s: string, quote: char): (n: nat)
    ensures n <= |s|
  {
    var r := Remainder(s, quote);
    |s| - |r| + if r == "" then 0 else 1
  }

  /** The token a string starts with. */
  function First(s: string): Token
    requires s != ""
  {
    if |s| > 1 && s[0] == '/' && s[1] == '/' then LineComment(s[2..2 + LineLength(s[2..])])
    else if |s| > 1 && s[0] == '/' && s[1] == '*' then
      BlockComment(s[2..2 + BlockLength(s[2..])], 2 + BlockLength(s[2..]) < |s|)
    else if IsQuote(s[0]) then
      Quoted(s[0], Units(s[1..], s[0]), EndingAt(Remainder(s[1..], s[0]), s[0]))
    else Plain(s[0])
  }

  /** How many characters that token takes. */
  function Length(s: string): (n: nat)
    requires s != ""
    ensures 0 < n <= |s|
  {
    if |s| > 1 && s[0] == '/' && s[1] == '/' then 2 + LineLength(s[2..])
    else if |s| > 1 && s[0] == '/' && s[1] == '*' then
      var n := 2 + BlockLength(s[2..]);
      if n < |s| then n + 2 else n
    else if IsQuote(s[0]) then 1 + SkipLength(s[1..], s[0])
    else 1
  }

  function Lex(s: string): seq<Token>
    decreases |s|
  {
    if s == "" then [] else [First(s)] + Lex(s[Length(s)..])
  }

  /** The query with every comment and literal replaced by one space. */
  function Erase(ts: seq<Token>): string {
    if ts == [] then "" else (if ts[0].Plain? then [ts[0].c] else " ") + Erase(ts[1..])
  }

  /** One character is left of each token: a plain one as it is, a space of each comment and literal. */
  lemma {:induction false} EraseSpells(ts: seq<Token>, i: nat)
    requires i < |ts|
    ensures |Erase(ts)| == |ts| && Erase(ts)[i] == if ts[i].Plain? then ts[i].c else ' '
  {
    if |ts| > 1 {
      EraseSpells(ts[1..], if i == 0 then 0 else i - 1);
    }
  }

  // ----- parsing is lossless and well-formed -----

  lemma {:induction false} LineIsMaximal(s: string)
    ensures var n := LineLength(s);
      && (forall c :: c in s[..n] ==> !IsNewline(c)) && (n < |s| ==> IsNewline(s[n]))
  {
    if s != "" && !IsNewline(s[0]) {
      LineIsMaximal(s[1..]);
      assert s[..LineLength(s)] == [s[0]] + s[1..][..LineLength(s[1..])];
    }
  }

  lemma {:induction false} BlockIsMinimal(s: string)
    ensures var n := BlockLength(s);
      && NoBlockEnd(s[..n]) && (n < |s| ==> s[n] == '*' && s[n + 1] == '/')
  {
    if |s| >= 2 && !(s[0] == '*' && s[1] == '/') {
      BlockIsMinimal(s[1..]);
      var n := BlockLength(s);
      forall i | 0 <= i < n - 1 ensures !(s[i] == '*' && s[i + 1] == '/') {
        if i > 0 {
          assert s[1..][..n - 1][i - 1] == s[i] && s[1..][..n - 1][i] == s[i + 1];
        }
      }
    }
  }

  lemma {:induction false} UnitsAreLossless(s: string, quote: char)
    ensures var us, r := Units(s, quote), Remainder(s, quote);
      && s == UnitsText(us, quote) + r && NextUnit(r, quote).None?
      && forall u :: u in us ==> UnitOk(u, quote)
    decreases |s|
  {
    hide NextUnit, UnitText, UnitOk;
    NextUnitFits(s, quote);
    if NextUnit(s, quote).Some? {
      var u := NextUnit(s, quote).value;
      UnitsAreLossless(s[UnitLength(u)..], quote);
      assert s == s[..UnitLength(u)] + s[UnitLength(u)..];
      assert Units(s, quote)[1..] == Units(s[UnitLength(u)..], quote);
    }
  }

  lemma LineFirst(s: string)
    requires |s| > 1 && s[0] == '/' && s[1] == '/'
    ensures s[..Length(s)] == TokenText(First(s)) && TokenOk(First(s), s[Length(s)..])
  {
    LineIsMaximal(s[2..]);
    var n := 2 + LineLength(s[2..]);
    assert s[2..n] == s[2..][..n - 2];
    hide LineLength;
    assert s[..n] == "//" + s[2..n];
  }

  lemma BlockFirst(s: string)
    requires |s| > 1 && s[0] == '/' && s[1] == '*'
    ensures s[..Length(s)] == TokenText(First(s)) && TokenOk(First(s), s[Length(s)..])
  {
    BlockIsMinimal(s[2..]);
    var n := 2 + BlockLength(s[2..]);
    assert s[2..n] == s[2..][..n - 2];
    hide BlockLength, NoBlockEnd;
    assert s[..n] == "/*" + s[2..n];
    if n < |s| {
      assert s[..n + 2] == s[..n] + "*/";
    }
  }

  lemma EndingFits(r: string, quote: char)
    requires IsQuote(quote) && NextUnit(r, quote).None?
    ensures var e := EndingAt(r, quote);
      var n := if r == "" then 0 else 1;
      && r[..n] == EndingText(e, quote)
      && match e
         case Closed => r[n..] != "" ==> r[n..][0] != quote
         case Open => r[n..] == ""
         case OpenBackslash => r[n..] == "" && quote != '`'
  {
  }

  lemma QuotedFirst(s: string)
    requires s != "" && IsQuote(s[0])
    ensures s[..Length(s)] == TokenText(First(s)) && TokenOk(First(s), s[Length(s)..])
  {
    var quote := s[0];
    UnitsAreLossless(s[1..], quote);
    var us, r := Units(s[1..], quote), Remainder(s[1..], quote);
    EndingFits(r, quote);
    hide Units, Remainder, NextUnit, EndingAt, UnitOk, EndingText, UnitsText;
    var inner := UnitsText(us, quote);
    assert s == [quote] + (inner + r);
    QuotedAt(s, quote, inner, r);
    var n := if r == "" then 0 else 1;
    CutInside(s, [quote] + inner, r, n);
    assert [quote] + (inner + r) == ([quote] + inner) + r;
  }

  lemma CutInside(s: string, a: string, r: string, n: nat)
    requires n <= |r|
    ensures s == a + r ==> s[..|a| + n] == a + r[..n] && s[|a| + n..] == r[n..]
  {
  }

  /** The first token is well-formed, and its text is what it takes. */
  lemma FirstIsOk(s: string)
    requires s != ""
    ensures s[..Length(s)] == TokenText(First(s)) && TokenOk(First(s), s[Length(s)..])
  {
    if |s| > 1 && s[0] == '/' && s[1] == '/' {
      LineFirst(s);
    } else if |s| > 1 && s[0] == '/' && s[1] == '*' {
      BlockFirst(s);
    } else if IsQuote(s[0]) {
      QuotedFirst(s);
    }
  }

  /** Every string has a well-formed parse that loses nothing. */
  lemma {:induction false} LexIsLossless(s: string)
    ensures Text(Lex(s)) == s && Valid(Lex(s))
    decreases |s|
  {
    hide First, Length, TokenText, TokenOk;
    if s != "" {
      FirstIsOk(s);
      LexIsLossless(s[Length(s)..]);
      assert s == s[..Length(s)] + s[Length(s)..];
    }
  }

  // ----- the parse is the only one -----

  lemma {:induction false} LineLengthIs(body: string, rest: string)
    requires (forall c :: c in body ==> !IsNewline(c)) && (rest != "" ==> IsNewline(rest[0]))
    ensures LineLength(body + rest) == |body|
  {
    if body != "" {
      LineLengthIs(body[1..], rest);
      assert body[0] in body;
      assert (body + rest)[1..] == body[1..] + rest;
    } else {
      assert body + rest == rest;
    }
  }

  lemma {:induction false} BlockLengthIs(body: string, rest: string)
    requires NoBlockEnd(body) && (rest == "" || (|rest| > 1 && rest[0] == '*' && rest[1] == '/'))
    ensures BlockLength(body + rest) == |body|
  {
    if body != "" {
      var s := body + rest;
      assert |body| > 1 ==> s[0] == body[0] && s[1] == body[1];
      assert |body| == 1 && rest != "" ==> s[1] == '*';
      BlockLengthIs(body[1..], rest);
      assert s[1..] == body[1..] + rest;
    } else {
      assert body + rest == rest;
    }
  }

  /** A unit at the head of quoted text is read as itself. */
  lemma UnitIsNext(u: Unit, quote: char, tail: string)
    requires IsQuote(quote) && UnitOk(u, quote)
    ensures NextUnit(UnitText(u, quote) + tail, quote) == Some(u)
    ensures |UnitText(u, quote)| == UnitLength(u)
  {
  }

  /** So is an ending. */
  lemma EndingIsNext(e: Ending, quote: char, rest: string)
    requires TokenOk(Quoted(quote, [], e), rest)
    ensures var s := EndingText(e, quote) + rest;
      && NextUnit(s, quote).None? && EndingAt(s, quote) == e
      && |EndingText(e, quote)| == if s == "" then 0 else 1
  {
  }

  lemma {:induction false} UnitsAre(us: seq<Unit>, quote: char, r: string)
    requires IsQuote(quote) && (forall u :: u in us ==> UnitOk(u, quote)) && NextUnit(r, quote).None?
    ensures Units(UnitsText(us, quote) + r, quote) == us
    ensures Remainder(UnitsText(us, quote) + r, quote) == r
  {
    hide NextUnit, UnitText, UnitOk;
    var s := UnitsText(us, quote) + r;
    if us == [] {
      assert s == r;
    } else {
      assert us[0] in us;
      var tail := UnitsText(us[1..], quote) + r;
      UnitsAre(us[1..], quote, r);
      UnitIsNext(us[0], quote, tail);
      assert s == UnitText(us[0], quote) + tail;
      assert s[UnitLength(us[0])..] == tail;
      assert us == [us[0]] + us[1..];
    }
  }

  lemma LineIsFirst(body: string, rest: string)
    requires TokenOk(LineComment(body), rest)
    ensures var s := "//" + body + rest;
      First(s) == LineComment(body) && Length(s) == 2 + |body|
  {
    var s := "//" + body + rest;
    LineLengthIs(body, rest);
    hide LineLength;
    assert s[2..] == body + rest;
    assert s[2..2 + |body|] == body;
  }

  lemma BlockIsFirst(body: string, closed: bool, rest: string)
    requires TokenOk(BlockComment(body, closed), rest)
    ensures var s := "/*" + body + (if closed then "*/" else "") + rest;
      First(s) == BlockComment(body, closed) && Length(s) == 2 + |body| + if closed then 2 else 0
  {
    var tail := (if closed then "*/" else "") + rest;
    var s := "/*" + body + (if closed then "*/" else "") + rest;
    BlockLengthIs(body, tail);
    hide BlockLength, NoBlockEnd;
    assert s[2..] == body + tail;
    assert s[2..2 + |body|] == body;
  }

  lemma QuotedIsFirst(quote: char, us: seq<Unit>, e: Ending, rest: string)
    requires TokenOk(Quoted(quote, us, e), rest)
    ensures var s := TokenText(Quoted(quote, us, e)) + rest;
      First(s) == Quoted(quote, us, e) && Length(s) == |TokenText(Quoted(quote, us, e))|
  {
    var r := EndingText(e, quote) + rest;
    EndingIsNext(e, quote, rest);
    UnitsAre(us, quote, r);
    var inner := UnitsText(us, quote);
    var end := EndingText(e, quote);
    hide Units, Remainder, NextUnit, EndingAt, EndingText, UnitOk, UnitsText, TokenOk, SkipLength;
    QuotedAt([quote] + (inner + r), quote, inner, r);
    Regroup([quote], inner, end, rest);
    hide First, Length;
    assert TokenText(Quoted(quote, us, e)) == [quote] + inner + end;
  }

  lemma Regroup(a: string, b: string, c: string, d: string)
    ensures (a + b + c) + d == a + (b + (c + d))
  {
  }

  /** Quoted text read from where its units and the remainder are known. */
  lemma QuotedAt(s: string, quote: char, inner: string, r: string)
    requires IsQuote(quote) && s == [quote] + (inner + r) && Remainder(inner + r, quote) == r
    ensures First(s) == Quoted(quote, Units(inner + r, quote), EndingAt(r, quote))
    ensures Length(s) == 1 + |inner| + if r == "" then 0 else 1
  {
    hide Units, Remainder, EndingAt;
    assert s[1..] == inner + r;
  }

  /** A token at the head of a string it may stand before is read as itself. */
  lemma FirstIs(t: Token, rest: string)
    requires TokenOk(t, rest)
    ensures var s := TokenText(t) + rest;
      s != "" && First(s) == t && Length(s) == |TokenText(t)|
  {
    match t
    case Plain(c) =>
    case LineComment(body) => LineIsFirst(body, rest);
    case BlockComment(body, closed) => BlockIsFirst(body, closed, rest);
    case Quoted(quote, us, e) => QuotedIsFirst(quote, us, e, rest);
  }

  lemma {:induction false} LexOfText(ts: seq<Token>)
    requires Valid(ts)
    ensures Lex(Text(ts)) == ts
  {
    hide First, Length, TokenText, TokenOk;
    if ts != [] {
      LexOfText(ts[1..]);
      FirstIs(ts[0], Text(ts[1..]));
      assert Text(ts)[|TokenText(ts[0])|..] == Text(ts[1..]);
      assert ts == [ts[0]] + ts[1..];
    }
  }

  /** Each string has exactly one well-formed parse. */
  lemma UniqueParse(s: string, ts: seq<Token>)
    ensures Valid(ts) && Text(ts) == s <==> ts == Lex(s)
  {
    LexIsLossless(s);
    if Valid(ts) {
      LexOfText(ts);
    }
  }

  // ----- what is left -----

  /** No quote, and no comment start. */
  ghost predicate Clean(s: string) {
    && (forall i :: 0 <= i < |s| ==> !IsQuote(s[i]))
    && (forall i :: 0 <= i < |s| - 1 ==> !(s[i] == '/' && (s[i + 1] == '/' || s[i + 1] == '*')))
  }

  lemma CleanCons(c: char, s: string)
    requires Clean(s) && !IsQuote(c) && (c == '/' && s != "" ==> s[0] != '/' && s[0] != '*')
    ensures Clean([c] + s)
  {
    forall i | 0 <= i < |s| ensures !(([c] + s)[i] == '/' && (([c] + s)[i + 1] == '/' || ([c] + s)[i + 1] == '*')) {
      assert i > 0 ==> ([c] + s)[i] == s[i - 1];
    }
  }

  lemma {:induction false} EraseIsClean(ts: seq<Token>)
    requires Valid(ts)
    ensures Clean(Erase(ts))
    ensures Erase(ts) != "" ==> Erase(ts)[0] == ' ' || (Text(ts) != "" && Erase(ts)[0] == Text(ts)[0])
  {
    if ts != [] {
      EraseIsClean(ts[1..]);
      CleanCons(if ts[0].Plain? then ts[0].c else ' ', Erase(ts[1..]));
    }
  }

  lemma {:induction false} CleanIsPlain(s: string)
    requires Clean(s)
    ensures Erase(Lex(s)) == s
  {
    if s != "" {
      assert !IsQuote(s[0]);
      assert |s| > 1 ==> !(s[0] == '/' && (s[1] == '/' || s[1] == '*'));
      assert Clean(s[1..]) by {
        forall i | 0 <= i < |s[1..]| ensures !IsQuote(s[1..][i]) {
          assert s[1..][i] == s[i + 1];
        }
        forall i | 0 <= i < |s[1..]| - 1
          ensures !(s[1..][i] == '/' && (s[1..][i + 1] == '/' || s[1..][i + 1] == '*'))
        {
          assert s[1..][i] == s[i + 1] && s[1..][i + 1] == s[i + 2];
        }
      }
      CleanIsPlain(s[1..]);
      assert Lex(s) == [Plain(s[0])] + Lex(s[1..]);
    }
  }

  /** What is left holds no quote and no comment start, and stripping it again changes nothing. */
  lemma StrippedIsClean(s: string)
    ensures Clean(Erase(Lex(s))) && Erase(Lex(Erase(Lex(s)))) == Erase(Lex(s))
    ensures forall c :: c in Erase(Lex(s)) ==> c != '\'' && c != '"' && c != '`'
  {
    LexIsLossless(s);
    EraseIsClean(Lex(s));
    CleanIsPlain(Erase(Lex(s)));
  }

  // ----- the scanner -----

  method SkipQuoted(query: string, start: nat, quote: char) returns (end: nat)
    requires start < |query| && query[start] == quote && IsQuote(quote)
    ensures end == start + 1 + SkipLength(query[start + 1..], quote)
  {
    hide Remainder;
    ghost var r := Remainder(query[start + 1..], quote);
    var index := start + 1;
    while index < |query|
      invariant start < index <= |query|
      invariant r == Remainder(query[index..], quote)
      decreases |query| - index
    {
      var char_ := query[index];
      RemainderStep(query, index, quote);
      if char_ == '\\' && quote != '`' {
        if index + 2 > |query| {
          return |query|;
        }
        index := index + 2;
        continue;
      }
      if char_ == quote {
        if index + 1 < |query| && query[index + 1] == quote {
          index := index + 2;
          continue;
        }
        return index + 1;
      }
      index := index + 1;
    }
    assert query[index..] == "";
    NothingRemains(quote);
    return |query|;
  }

  lemma NothingRemains(quote: char)
    ensures Remainder("", quote) == ""
  {
  }

  /** What one turn of the quote skipper does to what remains. */
  lemma RemainderStep(query: string, index: nat, quote: char)
    requires index < |query| && IsQuote(quote)
    ensures var c := query[index];
      Remainder(query[index..], quote) ==
      if c == '\\' && quote != '`' then
        (if index + 2 > |query| then query[index..] else Remainder(query[index + 2..], quote))
      else if c == quote then
        (if index + 1 < |query| && query[index + 1] == quote then Remainder(query[index + 2..], quote) else query[index..])
      else Remainder(query[index + 1..], quote)
  {
    var s := query[index..];
    assert s[0] == query[index] && (index + 1 < |query| ==> s[1] == query[index + 1]);
    assert s[1..] == query[index + 1..];
    assert index + 2 <= |query| ==> s[2..] == query[index + 2..];
  }

  method SkipLine(query: string, start: nat) returns (end: nat)
    requires start <= |query|
    ensures end == start + LineLength(query[start..])
  {
    end := start;
    while end < |query| && !IsNewline(query[end])
      invariant start <= end <= |query|
      invariant start + LineLength(query[start..]) == end + LineLength(query[end..])
    {
      assert query[end..][1..] == query[end + 1..];
      end := end + 1;
    }
  }

  method SkipBlock(query: string, start: nat) returns (end: nat)
    requires start <= |query|
    ensures var n := start + BlockLength(query[start..]);
      end == if n == |query| then n else n + 2
  {
    var index := start;
    while index + 1 < |query| && !(query[index] == '*' && query[index + 1] == '/')
      invariant start <= index <= |query|
      invariant start + BlockLength(query[start..]) == index + BlockLength(query[index..])
    {
      assert query[index..][1..] == query[index + 1..];
      index := index + 1;
    }
    end := if |query| < index + 2 then |query| else index + 2;
  }

  function Shown(t: Token): string {
    if t.Plain? then [t.c] else " "
  }

  /** One step of the scanner: what it appends, and where it goes on. */
  method StripOne(query: string, index: nat) returns (out: string, next: nat)
    requires index < |query|
    ensures out == Shown(First(query[index..])) && next == index + Length(query[index..])
  {
    hide LineLength, BlockLength, SkipLength, Units, Remainder, EndingAt;
    ghost var s := query[index..];
    var char_ := query[index];
    if char_ == '/' && index + 1 < |query| && query[index + 1] == '/' {
      next := SkipLine(query, index + 2);
      assert s[2..] == query[index + 2..];
      return " ", next;
    }
    if char_ == '/' && index + 1 < |query| && query[index + 1] == '*' {
      next := SkipBlock(query, index + 2);
      assert s[2..] == query[index + 2..];
      return " ", next;
    }
    if IsQuote(char_) {
      next := SkipQuoted(query, index, char_);
      assert s[1..] == query[index + 1..];
      return " ", next;
    }
    return [char_], index + 1;
  }

  lemma EraseStep(query: string, index: nat)
    requires index < |query|
    ensures var n := index + Length(query[index..]);
      Erase(Lex(query[index..])) == Shown(First(query[index..])) + Erase(Lex(query[n..]))
  {
    hide First, Length;
    var s := query[index..];
    assert s[Length(s)..] == query[index + Length(s)..];
    assert Lex(s)[1..] == Lex(s[Length(s)..]);
  }

  /** The scanner computes the erased parse of every query. */
  method StripCommentsAndLiterals(query: string) returns (result: string)
    ensures result == Erase(Lex(query))
  {
    hide Erase, Lex, First, Length, Shown;
    result := "";
    var index := 0;
    assert query[0..] == query;
    while index < |query|
      invariant 0 <= index <= |query|
      invariant result + Erase(Lex(query[index..])) == Erase(Lex(query))
    {
      EraseStep(query, index);
      var out, next := StripOne(query, index);
      assert result + (out + Erase(Lex(query[next..]))) == (result + out) + Erase(Lex(query[next..]));
      result, index := result + out, next;
    }
    assert query[index..] == "";
    EraseNothing();
  }

  lemma EraseNothing()
    ensures Erase(Lex("")) == ""
  {
  }
}
