// A migration as it is written: a row of blanks, comments, literals, dollar-quoted texts, quoted identifiers, words and
// single characters. The scanner is proved to take apart what was put together.
module SqlText {
  import opened Options
  import opened SqlScan

  // What stands between the opening and the closing of a block comment.
  datatype Inside = NoMore | Then(c: char, rest: Inside) | Nested(inner: Inside, rest: Inside)

  datatype Lexeme =
    | Blank(space: char)
    | LineComment(text: string)
    | BlockComment(inside: Inside)
    | DollarQuoted(tag: string, body: string)
    | QuotedLiteral(prefix: string, value: string)
    | QuotedName(name: string)
    | PlainWord(word: string)
    | Single(mark: char)

  // ---------- Writing ----------

  // Through the closing of the comment.
  function Closed(inside: Inside): string {
    match inside
    case NoMore => "*/"
    case Then(c, rest) => [c] + Closed(rest)
    case Nested(inner, rest) => "/*" + (Closed(inner) + Closed(rest))
  }

  // No two characters meet by accident that would open or close a comment.
  predicate NothingMeets(inside: Inside) {
    match inside
    case NoMore => true
    case Then(c, rest) =>
      NothingMeets(rest) && !(c == '/' && Closed(rest)[0] == '*') && !(c == '*' && Closed(rest)[0] == '/')
    case Nested(inner, rest) => NothingMeets(inner) && NothingMeets(rest)
  }

  // An identifier's text with its quotes doubled.
  function Doubled(name: string): string {
    if name == "" then "" else (if name[0] == '"' then "\"\"" else [name[0]]) + Doubled(name[1..])
  }

  // A literal's text with quotes doubled and backslashes escaped.
  function Escaped(value: string): string {
    if value == "" then ""
    else (if value[0] == '\'' || value[0] == '\\' then [value[0], value[0]] else [value[0]]) + Escaped(value[1..])
  }

  predicate Escapes(prefix: string) {
    prefix == "E" || prefix == "e"
  }

  function Delimiter(tag: string): string {
    "$" + tag + "$"
  }

  function Text(l: Lexeme): string {
    match l
    case Blank(space) => [space]
    case LineComment(text) => "--" + text
    case BlockComment(inside) => "/*" + Closed(inside)
    case DollarQuoted(tag, body) => Delimiter(tag) + (body + Delimiter(tag))
    case QuotedLiteral(prefix, value) =>
      prefix + ("'" + ((if Escapes(prefix) then Escaped(value) else Quoted(value)) + "'"))
    case QuotedName(name) => "\"" + (Doubled(name) + "\"")
    case PlainWord(word) => word
    case Single(mark) => [mark]
  }

  function Kinded(l: Lexeme): Kind {
    match l
    case Blank(_) => Space
    case LineComment(_) => Comment
    case BlockComment(_) => Comment
    case DollarQuoted(_, _) => Dollar
    case QuotedLiteral(prefix, _) => Literal(prefix != "")
    case QuotedName(_) => Name
    case PlainWord(_) => Word
    case Single(_) => Mark
  }

  // What a quoted text stands for.
  function Meaning(l: Lexeme): string {
    match l
    case DollarQuoted(_, body) => body
    case QuotedLiteral(_, value) => value
    case _ => ""
  }

  predicate StartsWith(rest: string, c: char) {
    rest != "" && rest[0] == c
  }

  predicate IsPrefix(prefix: string) {
    prefix in {"", "E", "e", "B", "b", "X", "x", "U&", "u&"}
  }

  predicate ValidTag(tag: string) {
    tag == "" || (IsLetter(tag[0]) && forall i :: 0 <= i < |tag| ==> IsTagChar(tag[i]))
  }

  // The delimiter ends the body where it stands, and not before.
  predicate EndsAtDelimiter(tag: string, body: string) {
    forall i :: 0 <= i < |body| ==> !(Delimiter(tag) <= (body + Delimiter(tag))[i..])
  }

  // `l` can be written before `rest` without the two running together.
  predicate Fits(l: Lexeme, rest: string) {
    match l
    case Blank(space) => IsSpace(space)
    case LineComment(text) =>
      (forall i :: 0 <= i < |text| ==> !IsNewline(text[i])) && (rest != "" ==> IsNewline(rest[0]))
    case BlockComment(inside) => NothingMeets(inside)
    case DollarQuoted(tag, body) => ValidTag(tag) && EndsAtDelimiter(tag, body)
    case QuotedLiteral(prefix, value) =>
      IsPrefix(prefix) && !StartsWith(rest, '\'')
    case QuotedName(name) => !StartsWith(rest, '"')
    case PlainWord(word) =>
      IsWord(word) && (rest != "" ==> !IsWordChar(rest[0])) &&
      !(word in {"E", "e", "B", "b", "X", "x"} && StartsWith(rest, '\'')) &&
      !(word in {"U", "u"} && StartsWith(rest, '&') && StartsWith(rest[1..], '\''))
    case Single(mark) =>
      !IsSpace(mark) && !IsLetter(mark) && mark != '\'' && mark != '"' &&
      !(mark == '-' && StartsWith(rest, '-')) && !(mark == '/' && StartsWith(rest, '*')) &&
      !(mark == '$' && TagLen(rest).Some?)
  }

  // ---------- Reading back ----------

  lemma {:induction false} LineIsRead(text: string, rest: string)
    requires (forall i :: 0 <= i < |text| ==> !IsNewline(text[i])) && (rest != "" ==> IsNewline(rest[0]))
    ensures LineLen(text + rest) == |text|
    decreases |text|
  {
    if text == "" {
      assert text + rest == rest;
    } else {
      assert (text + rest)[1..] == text[1..] + rest;
      LineIsRead(text[1..], rest);
    }
  }

  lemma ClosedStarts(inside: Inside)
    ensures |Closed(inside)| >= 2
  {
  }

  lemma {:induction false} CommentIsRead(inside: Inside, rest: string, depth: nat)
    requires NothingMeets(inside) && depth >= 1
    ensures BlockLen(Closed(inside) + rest, depth) == After(|Closed(inside)|, BlockLen(rest, depth - 1))
    decreases inside
  {
    hide BlockLen;
    var s := Closed(inside) + rest;
    assert s[0..] == s;
    ClosedStarts(inside);
    BlockStep(s, 0, depth);
    match inside
    case NoMore =>
      assert s[2..] == rest && s[0] == '*' && s[1] == '/';
    case Then(c, more) =>
      ClosedStarts(more);
      assert s[1..] == Closed(more) + rest && s[0] == c && s[1] == Closed(more)[0];
      CommentIsRead(more, rest, depth);
    case Nested(inner, more) =>
      NestedIsRead(inner, more, rest);
      CommentIsRead(inner, Closed(more) + rest, depth + 1);
      CommentIsRead(more, rest, depth);
  }

  lemma NestedIsRead(inner: Inside, more: Inside, rest: string)
    ensures var s := Closed(Nested(inner, more)) + rest;
            s[0] == '/' && s[1] == '*' && s[2..] == Closed(inner) + (Closed(more) + rest)
  {
    hide Closed;
    NestedText(inner, more);
    Opened(Closed(inner), Closed(more), rest);
  }

  lemma NestedText(inner: Inside, more: Inside)
    ensures Closed(Nested(inner, more)) == "/*" + (Closed(inner) + Closed(more))
  {
  }

  lemma Opened(a: string, b: string, rest: string)
    ensures var s := ("/*" + (a + b)) + rest; s[0] == '/' && s[1] == '*' && s[2..] == a + (b + rest)
  {
  }

  lemma {:induction false} TagIsRead(tag: string, rest: string)
    requires forall i :: 0 <= i < |tag| ==> IsTagChar(tag[i])
    ensures TagRest(tag + ("$" + rest)) == Some(|tag| + 1)
    decreases |tag|
  {
    var s := tag + ("$" + rest);
    if tag == "" {
      assert s[0] == '$';
    } else {
      assert s[1..] == tag[1..] + ("$" + rest);
      TagIsRead(tag[1..], rest);
    }
  }

  lemma {:induction false} FirstDelimiter(body: string, delimiter: string, rest: string)
    requires delimiter != "" && forall i :: 0 <= i < |body| ==> !(delimiter <= (body + delimiter)[i..])
    ensures IndexOf(body + (delimiter + rest), delimiter) == Some(|body|)
    decreases |body|
  {
    var s := body + (delimiter + rest);
    if body == "" {
      assert s == delimiter + rest;
    } else {
      assert (body + delimiter)[0..] == body + delimiter;
      assert (body + delimiter)[..|delimiter|] == s[..|delimiter|];
      assert s[1..] == body[1..] + (delimiter + rest);
      forall i | 0 <= i < |body[1..]| ensures !(delimiter <= (body[1..] + delimiter)[i..]) {
        assert (body[1..] + delimiter)[i..] == (body + delimiter)[i + 1..];
      }
      FirstDelimiter(body[1..], delimiter, rest);
    }
  }

  // One character of a literal that stands for itself, and two that stand for the second of them.
  lemma CharacterIsRead(c: char, s: string, escapes: bool)
    requires c != '\'' && (c == '\\' ==> !escapes)
    ensures QuoteLen([c] + s, escapes) == After(1, QuoteLen(s, escapes)) &&
            Unquoted([c] + s, escapes) == [c] + Unquoted(s, escapes)
  {
    assert ([c] + s)[1..] == s;
  }

  lemma PairIsRead(c: char, s: string, escapes: bool)
    requires c == '\'' || (c == '\\' && escapes)
    ensures QuoteLen([c, c] + s, escapes) == After(2, QuoteLen(s, escapes)) &&
            Unquoted([c, c] + s, escapes) == [c] + Unquoted(s, escapes)
  {
    assert ([c, c] + s)[2..] == s;
  }

  lemma ClosingIsRead(rest: string, escapes: bool)
    requires !StartsWith(rest, '\'')
    ensures QuoteLen("'" + rest, escapes) == Some(1) && Unquoted("'" + rest, escapes) == ""
  {
    assert ("'" + rest)[0] == '\'';
    if rest != "" { assert ("'" + rest)[1] == rest[0]; }
  }

  lemma {:induction false} EscapesAreRead(value: string, rest: string)
    requires !StartsWith(rest, '\'')
    ensures var s := Escaped(value) + ("'" + rest);
            QuoteLen(s, true) == Some(|Escaped(value)| + 1) && Unquoted(s, true) == value
    decreases |value|
  {
    hide QuoteLen, Unquoted;
    var end := "'" + rest;
    if value == "" {
      assert Escaped(value) + end == end;
      ClosingIsRead(rest, true);
    } else {
      var c, next := value[0], Escaped(value[1..]);
      EscapesAreRead(value[1..], rest);
      if c == '\'' || c == '\\' {
        assert [c, c] + next + end == [c, c] + (next + end);
        PairIsRead(c, next + end, true);
      } else {
        assert [c] + next + end == [c] + (next + end);
        CharacterIsRead(c, next + end, true);
      }
      assert value == [c] + value[1..];
    }
  }

  lemma {:induction false} NameIsRead(name: string, rest: string, afterQuote: bool)
    requires !StartsWith(rest, '"')
    ensures NameLen(Doubled(name) + ("\"" + rest), afterQuote) == Some(|Doubled(name)| + 1)
    decreases |name|
  {
    var s := Doubled(name) + ("\"" + rest);
    if name == "" {
      assert s == "\"" + rest;
    } else {
      var next := Doubled(name[1..]) + ("\"" + rest);
      if name[0] == '"' {
        assert s[2..] == next;
        NameIsRead(name[1..], rest, true);
      } else {
        assert s[1..] == next;
        NameIsRead(name[1..], rest, false);
      }
    }
  }

  predicate IsRead(l: Lexeme, rest: string) {
    var s := Text(l) + rest;
    s != "" && Next(s) == Some(Piece(Kinded(l), |Text(l)|)) && Body(s, Kinded(l)) == Meaning(l)
  }

  lemma LineCommentIsRead(text: string, rest: string)
    requires Fits(LineComment(text), rest)
    ensures IsRead(LineComment(text), rest)
  {
    hide LineLen, BlockLen, TagLen, QuotePrefix;
    var s := "--" + text + rest;
    assert s[2..] == text + rest;
    LineIsRead(text, rest);
  }

  lemma BlockCommentIsRead(inside: Inside, rest: string)
    requires Fits(BlockComment(inside), rest)
    ensures IsRead(BlockComment(inside), rest)
  {
    hide LineLen, BlockLen, TagLen, QuotePrefix, NothingMeets, Closed;
    var s := "/*" + Closed(inside) + rest;
    assert s[2..] == Closed(inside) + rest;
    CommentIsRead(inside, rest, 1);
    assert BlockLen(rest, 0) == Some(0) by { Ends(rest, false, 0, false); }
  }

  lemma DollarIsRead(tag: string, body: string, rest: string)
    requires Fits(DollarQuoted(tag, body), rest)
    ensures IsRead(DollarQuoted(tag, body), rest)
  {
    hide IndexOf, TagRest, QuotePrefix, LineLen, BlockLen;
    var s := Text(DollarQuoted(tag, body)) + rest;
    var delimiter := Delimiter(tag);
    assert s[1..] == tag + ("$" + (body + (delimiter + rest)));
    TagIsRead(tag, body + (delimiter + rest));
    if tag != "" {
      assert s[1..][1..] == tag[1..] + ("$" + (body + (delimiter + rest)));
      TagIsRead(tag[1..], body + (delimiter + rest));
    }
    assert TagLen(s[1..]) == Some(|tag| + 1);
    assert s[..|tag| + 2] == delimiter && s[|tag| + 2..] == body + (delimiter + rest);
    FirstDelimiter(body, delimiter, rest);
    assert (body + (delimiter + rest))[..|body|] == body;
  }

  lemma LiteralFront(s: string, prefix: nat)
    requires s != "" && QuotePrefix(s) == Some(prefix) && !IsSpace(s[0]) && s[0] != '-' && s[0] != '/' && s[0] != '$'
    ensures var inside := s[prefix + 1..];
            Next(s) == Hide(Literal(prefix > 0), prefix + 1, QuoteLen(inside, AllowsEscapes(s[0]))) &&
            Body(s, Literal(prefix > 0)) == Unquoted(inside, AllowsEscapes(s[0]))
  {
    hide QuoteLen, Unquoted, LineLen, BlockLen, TagLen, QuotePrefix, IsSpace, AllowsEscapes;
  }

  function Inner(prefix: string, value: string): string {
    if Escapes(prefix) then Escaped(value) else Quoted(value)
  }

  lemma LiteralText(prefix: string, value: string, rest: string)
    ensures var text, tail := Text(QuotedLiteral(prefix, value)), Inner(prefix, value) + ("'" + rest);
            text + rest == prefix + ("'" + tail) && (text + rest)[|prefix| + 1..] == tail &&
            |text| == |prefix| + 1 + (|Inner(prefix, value)| + 1)
  {
    hide Escaped, Quoted, Escapes;
  }

  lemma InnerIsRead(prefix: string, value: string, rest: string)
    requires !StartsWith(rest, '\'')
    ensures var s := Inner(prefix, value) + ("'" + rest);
            QuoteLen(s, Escapes(prefix)) == Some(|Inner(prefix, value)| + 1) && Unquoted(s, Escapes(prefix)) == value
  {
    hide QuoteLen, Unquoted, Escaped, Quoted;
    if Escapes(prefix) { EscapesAreRead(value, rest); } else { QuotingRoundTrips(value, rest); }
  }

  lemma LiteralIsRead(prefix: string, value: string, rest: string)
    requires IsPrefix(prefix) && !StartsWith(rest, '\'')
    ensures IsRead(QuotedLiteral(prefix, value), rest)
  {
    hide QuoteLen, Unquoted, QuotePrefix, IsSpace, Escapes, AllowsEscapes, Next, Body, Text, Inner, IsPrefix;
    var l := QuotedLiteral(prefix, value);
    var tail := Inner(prefix, value) + ("'" + rest);
    LiteralText(prefix, value, rest);
    PrefixIsRead(prefix, tail);
    LiteralFront(Text(l) + rest, |prefix|);
    InnerIsRead(prefix, value, rest);
    EmptyPrefix(prefix);
  }

  lemma EmptyPrefix(prefix: string)
    ensures prefix != "" <==> |prefix| > 0
  {
  }

  lemma PrefixIsRead(prefix: string, rest: string)
    requires IsPrefix(prefix)
    ensures var s := prefix + ("'" + rest);
            QuotePrefix(s) == Some(|prefix|) && (AllowsEscapes(s[0]) <==> Escapes(prefix)) &&
            !IsSpace(s[0]) && s[0] != '-' && s[0] != '/' && s[0] != '$'
  {
    var s := prefix + ("'" + rest);
    assert s[|prefix|] == '\'';
    if prefix != "" { assert s[0] == prefix[0]; }
    if |prefix| == 2 { assert s[1] == '&'; }
  }

  lemma QuotedNameIsRead(name: string, rest: string)
    requires Fits(QuotedName(name), rest)
    ensures IsRead(QuotedName(name), rest)
  {
    hide NameLen, Doubled, LineLen, BlockLen;
    var s := Text(QuotedName(name)) + rest;
    assert s[1..] == Doubled(name) + ("\"" + rest);
    NameIsRead(name, rest, true);
  }

  lemma WordIsRead(word: string, rest: string)
    requires Fits(PlainWord(word), rest)
    ensures IsRead(PlainWord(word), rest)
  {
    hide WordLen, LineLen, BlockLen;
    var s := word + rest;
    WordReaches(s, |word|);
    assert s[0] == word[0];
    assert QuotePrefix(s).None? by {
      if |word| >= 2 { assert s[1] == word[1]; } else { assert s[1..] == rest && word == [word[0]]; }
      if |word| == 1 && |rest| >= 2 { assert s[2] == rest[1..][0]; }
    }
  }

  lemma OtherIsRead(l: Lexeme, rest: string)
    requires (l.Blank? || l.Single?) && Fits(l, rest)
    ensures IsRead(l, rest)
  {
    var s := Text(l) + rest;
    assert s[1..] == rest;
    if |s| >= 2 { assert s[1] == rest[0]; }
  }

  lemma LiteralFits(prefix: string, value: string, rest: string)
    requires Fits(QuotedLiteral(prefix, value), rest)
    ensures IsPrefix(prefix) && !StartsWith(rest, '\'')
  {
  }

  // Reading undoes writing: the scanner takes the text of a piece for that piece, through its very end, and for what it
  // stands for, whatever it is followed by.
  lemma WhatIsWrittenIsRead(l: Lexeme, rest: string)
    requires Fits(l, rest)
    ensures Next(Text(l) + rest) == Some(Piece(Kinded(l), |Text(l)|))
    ensures Body(Text(l) + rest, Kinded(l)) == Meaning(l)
  {
    hide Fits, Text, Next, Body, Kinded, Meaning, IsPrefix;
    match l
    case Blank(_) => OtherIsRead(l, rest);
    case Single(_) => OtherIsRead(l, rest);
    case LineComment(text) => LineCommentIsRead(text, rest);
    case BlockComment(inside) => BlockCommentIsRead(inside, rest);
    case DollarQuoted(tag, body) => DollarIsRead(tag, body, rest);
    case QuotedLiteral(prefix, value) =>
      assert IsPrefix(prefix) && !StartsWith(rest, '\'') by { LiteralFits(prefix, value, rest); }
      LiteralIsRead(prefix, value, rest);
    case QuotedName(name) => QuotedNameIsRead(name, rest);
    case PlainWord(word) => WordIsRead(word, rest);
  }

  // ---------- Whole texts ----------

  function TextOf(ls: seq<Lexeme>): string {
    if ls == [] then "" else Text(ls[0]) + TextOf(ls[1..])
  }

  predicate AllFit(ls: seq<Lexeme>) {
    ls == [] || (Fits(ls[0], TextOf(ls[1..])) && AllFit(ls[1..]))
  }

  // Blanks, words and single characters show as they are; anything else as one space.
  function ShownOf(ls: seq<Lexeme>): string {
    if ls == [] then ""
    else (if ls[0].Blank? || ls[0].PlainWord? || ls[0].Single? then Text(ls[0]) else " ") + ShownOf(ls[1..])
  }

  // The state after a text, if it is accepted: each piece advances it by its kind, its text and its meaning.
  function StateAfterAll(rules: Rules, st: State, ls: seq<Lexeme>): Option<State>
    decreases |ls|
  {
    if ls == [] then Some(st)
    else
      var next := Advance(rules, st, Kinded(ls[0]), Text(ls[0]), Meaning(ls[0]));
      if next.None? then None else StateAfterAll(rules, next.value, ls[1..])
  }

  // A text is scanned piece by piece as it was written, and shows just what should show of it.
  lemma {:induction false} WrittenTextIsScanned(rules: Rules, st: State, ls: seq<Lexeme>)
    requires AllFit(ls)
    ensures var last := StateAfterAll(rules, st, ls);
            Scan(rules, st, TextOf(ls)) ==
            if last.None? || Complete(rules, last.value).None? then None
            else Some(Scanned(ShownOf(ls), Complete(rules, last.value).value.routines))
    decreases |ls|
  {
    hide Scan, Next, Advance, Complete, Fits, Text, Body;
    if ls == [] {
      ScanEnd(rules, st);
    } else {
      var l, rest := ls[0], TextOf(ls[1..]);
      WhatIsWrittenIsRead(l, rest);
      TextIsThere(l, rest);
      PieceScans(rules, st, Kinded(l), Text(l), rest);
      var next := Advance(rules, st, Kinded(l), Text(l), Meaning(l));
      if next.Some? { WrittenTextIsScanned(rules, next.value, ls[1..]); }
    }
  }

  lemma TextIsThere(l: Lexeme, rest: string)
    requires Fits(l, rest)
    ensures Text(l) != ""
  {
    hide Doubled, Escaped, Quoted;
  }

  // ---------- What a text defines ----------

  function Init(ls: seq<Lexeme>): seq<Lexeme> requires ls != [] { ls[..|ls| - 1] }

  function Last(ls: seq<Lexeme>): Lexeme requires ls != [] { ls[|ls| - 1] }

  // The first six words in upper case; a literal with a prefix counts as one more.
  function WordsOf(ls: seq<Lexeme>): seq<string> {
    if ls == [] then []
    else
      var words := WordsOf(Init(ls));
      match Last(ls)
      case PlainWord(word) => if |words| < 6 then words + [Upper(word)] else words
      case QuotedLiteral(prefix, _) => if prefix == "" then words else words + ["STRING"]
      case _ => words
  }

  // The word that only blanks and comments separate from the end.
  function WordBefore(ls: seq<Lexeme>): string {
    if ls == [] then ""
    else
      match Last(ls)
      case PlainWord(word) => Upper(word)
      case Blank(_) => WordBefore(Init(ls))
      case LineComment(_) => WordBefore(Init(ls))
      case BlockComment(_) => WordBefore(Init(ls))
      case _ => ""
  }

  // The text from the first word on, if that comes before any literal with a prefix.
  function TextFromWord(ls: seq<Lexeme>): Option<string> {
    if ls == [] then None
    else
      var before := TextFromWord(Init(ls));
      if before.Some? then Some(before.value + Text(Last(ls)))
      else if Last(ls).PlainWord? && WordsOf(Init(ls)) == [] then Some(Text(Last(ls)))
      else None
  }

  // CREATE, and FUNCTION or PROCEDURE in one of the four places after it.
  predicate Routines(words: seq<string>) {
    words != [] && words[0] == "CREATE" &&
    exists i :: 1 <= i <= 4 && i < |words| && (words[i] == "FUNCTION" || words[i] == "PROCEDURE")
  }

  predicate Triggers(words: seq<string>) {
    |words| >= 2 && words[0] == "CREATE" && words[1] == "TRIGGER"
  }

  // The i-th piece is a quoted text right after the AS of a routine's definition.
  predicate BodyAt(ls: seq<Lexeme>, i: nat) {
    i < |ls| && (ls[i].DollarQuoted? || ls[i].QuotedLiteral?) && WordBefore(ls[..i]) == "AS" &&
    Routines(WordsOf(ls[..i]))
  }

  // A body written as a literal must not hold a backslash, and the name must be readable from what is shown before it.
  predicate BodyAllowed(rules: Rules, ls: seq<Lexeme>, i: nat) requires i < |ls| {
    rules.routineName(ShownOf(ls[..i])).Some? && (ls[i].QuotedLiteral? ==> '\\' !in Text(ls[i]))
  }

  predicate OneStatement(ls: seq<Lexeme>) {
    forall i :: 0 <= i < |ls| ==> ls[i] != Single(';')
  }

  lemma {:induction false} StateAfterMore(rules: Rules, st: State, ls: seq<Lexeme>, l: Lexeme)
    ensures var middle := StateAfterAll(rules, st, ls);
            StateAfterAll(rules, st, ls + [l]) ==
            if middle.None? then None else Advance(rules, middle.value, Kinded(l), Text(l), Meaning(l))
    decreases |ls|
  {
    hide Advance, Kinded, Text, Meaning;
    if ls == [] {
      assert ls + [l] == [l] && [l][1..] == [];
    } else {
      assert (ls + [l])[1..] == ls[1..] + [l];
      var next := Advance(rules, st, Kinded(ls[0]), Text(ls[0]), Meaning(ls[0]));
      if next.Some? { StateAfterMore(rules, next.value, ls[1..], l); }
    }
  }

  lemma {:induction false} ShownMore(ls: seq<Lexeme>, l: Lexeme)
    ensures ShownOf(ls + [l]) == ShownOf(ls) + ShownOf([l])
    decreases |ls|
  {
    hide Text;
    if ls == [] {
      assert ls + [l] == [l];
    } else {
      assert (ls + [l])[1..] == ls[1..] + [l];
      ShownMore(ls[1..], l);
    }
  }

  lemma ShownAlone(l: Lexeme)
    ensures ShownOf([l]) == Shown(Kinded(l), Text(l))
  {
    hide Text;
    assert [l][1..] == [];
  }

  // The state that the pieces of one statement lead to, when a body stands at `k` and nowhere else.
  ghost function Expected(rules: Rules, ls: seq<Lexeme>, n: nat, k: nat): Option<State> requires n <= |ls| {
    var front := ls[..n];
    var statement := Statement(WordsOf(front), TextFromWord(front));
    if k < n && BodyAt(ls, k) then
      if BodyAllowed(rules, ls, k) then
        Some(State(statement, ShownOf(front), WordBefore(front), true,
                   [Routine(rules.routineName(ShownOf(ls[..k])).value, Meaning(ls[k]), None)]))
      else None
    else Some(State(statement, ShownOf(front), WordBefore(front), false, []))
  }

  lemma WordsDefine(words: seq<string>)
    ensures DefinesRoutine(words) <==> Routines(words)
    ensures DefinesTrigger(words) <==> Triggers(words)
  {
  }

  lemma {:induction false} TextNeedsWords(ls: seq<Lexeme>)
    ensures TextFromWord(ls).Some? ==> WordsOf(ls) != []
  {
    hide Upper, Text;
    if ls != [] { TextNeedsWords(Init(ls)); }
  }

  lemma ExtendIs(ls: seq<Lexeme>, l: Lexeme)
    ensures var statement := Statement(WordsOf(ls), TextFromWord(ls));
            Extend(statement, Kinded(l), Text(l)) == Statement(WordsOf(ls + [l]), TextFromWord(ls + [l]))
  {
    hide Upper;
    assert Init(ls + [l]) == ls && Last(ls + [l]) == l;
    TextNeedsWords(ls);
  }

  lemma WordBeforeIs(ls: seq<Lexeme>, l: Lexeme)
    ensures WordBefore(ls + [l]) ==
            if l.PlainWord? then Upper(l.word)
            else if l.Blank? || l.LineComment? || l.BlockComment? then WordBefore(ls) else ""
  {
    hide Upper;
    assert Init(ls + [l]) == ls && Last(ls + [l]) == l;
  }

  // One piece further, away from the end of a statement.
  lemma PieceAdvances(rules: Rules, st: State, ls: seq<Lexeme>, l: Lexeme)
    requires st.statement == Statement(WordsOf(ls), TextFromWord(ls)) && st.shown == ShownOf(ls)
    requires st.previous == WordBefore(ls) && l != Single(';')
    ensures var isBody := (l.DollarQuoted? || l.QuotedLiteral?) && WordBefore(ls) == "AS" && Routines(WordsOf(ls));
            var name := rules.routineName(ShownOf(ls));
            var all := ls + [l];
            Advance(rules, st, Kinded(l), Text(l), Meaning(l)) ==
            if isBody && (name.None? || (l.QuotedLiteral? && '\\' in Text(l)) || st.pending) then None
            else Some(State(Statement(WordsOf(all), TextFromWord(all)), ShownOf(all), WordBefore(all),
                            st.pending || isBody,
                            if isBody then st.routines + [Routine(name.value, Meaning(l), None)] else st.routines))
  {
    hide Extend, WordsOf, TextFromWord, WordBefore, ShownOf, Upper, DefinesRoutine, Routines, Meaning, Shown;
    ExtendIs(ls, l);
    WordBeforeIs(ls, l);
    ShownMore(ls, l);
    ShownAlone(l);
    WordsDefine(WordsOf(ls));
  }

  lemma {:induction false} StateIsExpected(rules: Rules, ls: seq<Lexeme>, n: nat, k: nat)
    requires n <= |ls| && OneStatement(ls) && forall i :: 0 <= i < n && BodyAt(ls, i) ==> i == k
    ensures StateAfterAll(rules, START, ls[..n]) == Expected(rules, ls, n, k)
    decreases n
  {
    hide Advance, WordsOf, TextFromWord, WordBefore, ShownOf, Text, Meaning, Kinded, Routines;
    if n == 0 {
      assert ls[..0] == [];
      NothingWritten();
    } else {
      StateIsExpected(rules, ls, n - 1, k);
      var front, l := ls[..n - 1], ls[n - 1];
      assert ls[..n] == front + [l];
      StateAfterMore(rules, START, front, l);
      var before := Expected(rules, ls, n - 1, k);
      if before.Some? {
        PieceAdvances(rules, before.value, front, l);
        var isBody := (l.DollarQuoted? || l.QuotedLiteral?) && WordBefore(front) == "AS" && Routines(WordsOf(front));
        assert isBody <==> BodyAt(ls, n - 1);
        if isBody && rules.routineName(ShownOf(front)).Some? {
          var r := Routine(rules.routineName(ShownOf(front)).value, Meaning(l), None);
          assert before.value.routines + [r] == [r];
        }
      }
    }
  }

  lemma NothingWritten()
    ensures WordsOf([]) == [] && TextFromWord([]) == None && WordBefore([]) == "" && ShownOf([]) == ""
  {
  }

  // A trigger must be one that is pinned by just this text.
  predicate TriggerAllowed(rules: Rules, ls: seq<Lexeme>) {
    var words, text := WordsOf(ls), TextFromWord(ls);
    Triggers(words) ==> |words| > 2 && text.Some? && rules.pinnedTrigger(words[2], text.value)
  }

  lemma CompletedIs(rules: Rules, st: State)
    requires !st.pending ==> st.routines == []
    requires st.pending ==> |st.routines| == 1 && st.routines[0].definition == None
    ensures var t := st.statement;
            Complete(rules, st) ==
            if Routines(t.words) && !st.pending then None
            else if Triggers(t.words) && !(|t.words| > 2 && t.raw.Some? && rules.pinnedTrigger(t.words[2], t.raw.value))
            then None
            else Some(START.(routines :=
                               if st.pending then [Routine(st.routines[0].name, st.routines[0].body, t.raw)] else []))
  {
    hide DefinesRoutine, DefinesTrigger, Routines, Triggers;
    WordsDefine(st.statement.words);
    if st.pending {
      var r := st.routines[0].(definition := st.statement.raw);
      assert st.routines == [st.routines[0]] && st.routines[0 := r] == [r];
    }
  }

  // A statement written in any pieces: it defines a routine exactly when its words say so, and then needs just one
  // body, a quoted text right after AS, whatever blanks and comments stand between; the definition found has the name
  // read before the body, what the body stands for, and the whole text from the first word on.
  lemma DefinitionIsFoundInAnyText(rules: Rules, ls: seq<Lexeme>, k: nat)
    requires AllFit(ls) && OneStatement(ls) && forall i :: 0 <= i < |ls| && BodyAt(ls, i) ==> i == k
    ensures Scan(rules, START, TextOf(ls)) ==
            if !TriggerAllowed(rules, ls) then None
            else if BodyAt(ls, k) then
              if BodyAllowed(rules, ls, k) then
                var name := rules.routineName(ShownOf(ls[..k])).value;
                Some(Scanned(ShownOf(ls), [Routine(name, Meaning(ls[k]), TextFromWord(ls))]))
              else None
            else if Routines(WordsOf(ls)) then None
            else Some(Scanned(ShownOf(ls), []))
  {
    hide Advance, WordsOf, TextFromWord, WordBefore, ShownOf, Text, Meaning, Kinded, Routines, Scan, AllFit, TextOf,
         Triggers, Complete;
    assert ls[..|ls|] == ls;
    StateIsExpected(rules, ls, |ls|, k);
    WrittenTextIsScanned(rules, START, ls);
    var last := Expected(rules, ls, |ls|, k);
    if last.Some? { CompletedIs(rules, last.value); }
    if k < |ls| && BodyAt(ls, k) { RoutineStaysRoutine(ls, k); }
  }

  // Words are only ever added.
  lemma {:induction false} WordsGrow(ls: seq<Lexeme>, k: nat)
    requires k <= |ls|
    ensures WordsOf(ls[..k]) <= WordsOf(ls)
    decreases |ls|
  {
    hide Upper;
    if k == |ls| {
      assert ls[..k] == ls;
    } else {
      WordsGrow(Init(ls), k);
      assert Init(ls)[..k] == ls[..k];
    }
  }

  lemma RoutineStaysRoutine(ls: seq<Lexeme>, k: nat)
    requires k <= |ls| && Routines(WordsOf(ls[..k]))
    ensures Routines(WordsOf(ls))
  {
    hide WordsOf;
    WordsGrow(ls, k);
    var words := WordsOf(ls[..k]);
    var i :| 1 <= i <= 4 && i < |words| && (words[i] == "FUNCTION" || words[i] == "PROCEDURE");
    assert WordsOf(ls)[i] == words[i];
  }

  // A second body is refused.
  lemma SecondBodyIsRefused(rules: Rules, ls: seq<Lexeme>, k: nat, n: nat)
    requires AllFit(ls) && OneStatement(ls) && k < n && BodyAt(ls, k) && BodyAt(ls, n)
    requires forall i :: 0 <= i < n && BodyAt(ls, i) ==> i == k
    ensures Scan(rules, START, TextOf(ls)).None?
  {
    hide Advance, WordsOf, TextFromWord, WordBefore, ShownOf, Text, Meaning, Kinded, Routines, Scan, AllFit, TextOf;
    StateIsExpected(rules, ls, n, k);
    var front, l := ls[..n], ls[n];
    StateAfterMore(rules, START, front, l);
    var before := Expected(rules, ls, n, k);
    if before.Some? { PieceAdvances(rules, before.value, front, l); }
    assert ls == (front + [l]) + ls[n + 1..];
    NothingAfterRefusal(rules, START, front + [l], ls[n + 1..]);
    WrittenTextIsScanned(rules, START, ls);
  }

  lemma {:induction false} NothingAfterRefusal(rules: Rules, st: State, ls: seq<Lexeme>, more: seq<Lexeme>)
    requires StateAfterAll(rules, st, ls).None?
    ensures StateAfterAll(rules, st, ls + more).None?
    decreases |ls|
  {
    hide Advance, Kinded, Text, Meaning;
    assert (ls + more)[0] == ls[0] && (ls + more)[1..] == ls[1..] + more;
    var next := Advance(rules, st, Kinded(ls[0]), Text(ls[0]), Meaning(ls[0]));
    if next.Some? { NothingAfterRefusal(rules, next.value, ls[1..], more); }
  }

  // ---------- One statement after another ----------

  function Ahead(pre: seq<Routine>, st: Option<State>): Option<State> {
    if st.None? then None else Some(st.value.(routines := pre + st.value.routines))
  }

  predicate PendingHasRoutine(st: State) {
    st.pending ==> st.routines != []
  }

  lemma CompleteKeepsEarlier(rules: Rules, st: State, pre: seq<Routine>)
    requires PendingHasRoutine(st)
    ensures Complete(rules, st.(routines := pre + st.routines)) == Ahead(pre, Complete(rules, st))
    ensures Complete(rules, st).Some? ==> PendingHasRoutine(Complete(rules, st).value)
  {
    hide DefinesRoutine, DefinesTrigger;
    if st.pending {
      var all, n := pre + st.routines, |pre + st.routines| - 1;
      assert all[n] == st.routines[|st.routines| - 1];
      var r := all[n].(definition := st.statement.raw);
      assert all[n := r] == pre + st.routines[|st.routines| - 1 := r];
    }
  }

  lemma AdvanceKeepsEarlier(rules: Rules, st: State, pre: seq<Routine>, kind: Kind, text: string, body: string)
    requires PendingHasRoutine(st)
    ensures Advance(rules, st.(routines := pre + st.routines), kind, text, body) ==
            Ahead(pre, Advance(rules, st, kind, text, body))
    ensures Advance(rules, st, kind, text, body).Some? ==> PendingHasRoutine(Advance(rules, st, kind, text, body).value)
  {
    hide Extend, DefinesRoutine, Complete, Upper, Shown;
    var next :=
      st.(statement := Extend(st.statement, kind, text), shown := st.shown + Shown(kind, text), previous := "");
    CompleteKeepsEarlier(rules, next, pre);
    if rules.routineName(st.shown).Some? {
      var r := Routine(rules.routineName(st.shown).value, body, None);
      assert pre + st.routines + [r] == pre + (st.routines + [r]);
    }
  }

  lemma {:induction false} EarlierRoutinesStay(rules: Rules, st: State, pre: seq<Routine>, ls: seq<Lexeme>)
    requires PendingHasRoutine(st)
    ensures StateAfterAll(rules, st.(routines := pre + st.routines), ls) == Ahead(pre, StateAfterAll(rules, st, ls))
    ensures StateAfterAll(rules, st, ls).Some? ==> PendingHasRoutine(StateAfterAll(rules, st, ls).value)
    decreases |ls|
  {
    hide Advance, Kinded, Text, Meaning;
    if ls == [] {
    } else {
      AdvanceKeepsEarlier(rules, st, pre, Kinded(ls[0]), Text(ls[0]), Meaning(ls[0]));
      var next := Advance(rules, st, Kinded(ls[0]), Text(ls[0]), Meaning(ls[0]));
      if next.Some? { EarlierRoutinesStay(rules, next.value, pre, ls[1..]); }
    }
  }

  lemma {:induction false} StatesCompose(rules: Rules, st: State, ls: seq<Lexeme>, more: seq<Lexeme>)
    ensures var middle := StateAfterAll(rules, st, ls);
            StateAfterAll(rules, st, ls + more) ==
            if middle.None? then None else StateAfterAll(rules, middle.value, more)
    decreases |ls|
  {
    hide Advance, Kinded, Text, Meaning;
    if ls == [] {
      assert ls + more == more;
    } else {
      assert (ls + more)[0] == ls[0] && (ls + more)[1..] == ls[1..] + more;
      var next := Advance(rules, st, Kinded(ls[0]), Text(ls[0]), Meaning(ls[0]));
      if next.Some? { StatesCompose(rules, next.value, ls[1..], more); }
    }
  }

  lemma {:induction false} ShownOfBoth(ls: seq<Lexeme>, more: seq<Lexeme>)
    ensures ShownOf(ls + more) == ShownOf(ls) + ShownOf(more)
    decreases |ls|
  {
    hide Text;
    if ls == [] {
      assert ls + more == more;
    } else {
      assert (ls + more)[0] == ls[0] && (ls + more)[1..] == ls[1..] + more;
      ShownOfBoth(ls[1..], more);
    }
  }

  // A semicolon leaves nothing of its statement behind but the routines that were found.
  lemma SemicolonStartsAnew(rules: Rules, ls: seq<Lexeme>)
    requires StateAfterAll(rules, START, ls + [Single(';')]).Some?
    ensures var st := StateAfterAll(rules, START, ls + [Single(';')]).value;
            st == START.(routines := st.routines) && Complete(rules, st) == Some(st)
  {
    hide StateAfterAll, WordsOf;
    StateAfterMore(rules, START, ls, Single(';'));
    var st := StateAfterAll(rules, START, ls).value;
    SemicolonCompletes(rules, st);
  }

  lemma SemicolonCompletes(rules: Rules, st: State)
    requires Advance(rules, st, Mark, ";", "").Some?
    ensures var next := Advance(rules, st, Mark, ";", "").value;
            next == START.(routines := next.routines) && Complete(rules, next) == Some(next)
  {
  }

  // Statements are scanned in turn: what comes after a semicolon is scanned as if nothing stood before it, and shows
  // and defines what it would alone.
  lemma StatementsAreScannedInTurn(rules: Rules, first: seq<Lexeme>, rest: seq<Lexeme>)
    requires AllFit(first + [Single(';')]) && AllFit(rest) && AllFit(first + [Single(';')] + rest)
    ensures var one, two := Scan(rules, START, TextOf(first + [Single(';')])), Scan(rules, START, TextOf(rest));
            Scan(rules, START, TextOf(first + [Single(';')] + rest)) ==
            if one.None? || two.None? then None
            else Some(Scanned(one.value.visible + two.value.visible, one.value.routines + two.value.routines))
  {
    hide Scan, StateAfterAll, ShownOf, AllFit, TextOf, Complete;
    var front := first + [Single(';')];
    WrittenTextIsScanned(rules, START, front);
    WrittenTextIsScanned(rules, START, rest);
    WrittenTextIsScanned(rules, START, front + rest);
    StatesCompose(rules, START, front, rest);
    ShownOfBoth(front, rest);
    if StateAfterAll(rules, START, front).Some? {
      SemicolonStartsAnew(rules, first);
      var pre := StateAfterAll(rules, START, front).value.routines;
      assert pre + START.routines == pre;
      EarlierRoutinesStay(rules, START, pre, rest);
      if StateAfterAll(rules, START, rest).Some? {
        CompleteKeepsEarlier(rules, StateAfterAll(rules, START, rest).value, pre);
      }
    }
  }

  // ---------- Which characters are which ----------

  const LOWER := "abcdefghijklmnopqrstuvwxyz"

  const UPPER := "ABCDEFGHIJKLMNOPQRSTUVWXYZ"

  // Words are compared without regard to the case of their letters.
  lemma CaseIsIgnored(s: string, i: nat)
    requires i < |s|
    ensures |Upper(s)| == |s|
    ensures forall k :: 0 <= k < 26 && s[i] == LOWER[k] ==> Upper(s)[i] == UPPER[k]
    ensures s[i] !in LOWER ==> Upper(s)[i] == s[i]
  {
  }

  lemma WordCharacters(c: char)
    ensures IsLetter(c) <==> c in UPPER || c in LOWER || c == '_'
    ensures IsTagChar(c) <==> IsLetter(c) || c in "0123456789"
    ensures IsWordChar(c) <==> IsTagChar(c) || c == '$'
  {
  }

  // White space and line terminators of ECMAScript (sections 12.2 and 12.3 of ECMA-262), and where a line comment ends.
  lemma BlankCharacters(c: char)
    ensures IsSpace(c) <==>
            c in "\t\n\U{000B}\U{000C}\r \U{00A0}\U{1680}\U{2028}\U{2029}\U{202F}\U{205F}\U{3000}\U{FEFF}" ||
            c in "\U{2000}\U{2001}\U{2002}\U{2003}\U{2004}\U{2005}\U{2006}\U{2007}\U{2008}\U{2009}\U{200A}"
    ensures IsNewline(c) <==> c in "\r\n"
  {
  }
}
