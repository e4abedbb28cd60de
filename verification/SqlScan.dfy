// Masking comments and literals in a migration: what stays visible, and what cannot show.
module SqlScan {
  import opened Options

  predicate IsNewline(c: char) {
    c == '\r' || c == '\n'
  }

  // The characters that count as white space in a pattern of the source's language.
  predicate IsSpace(c: char) {
    '\t' <= c <= '\r' || c == ' ' || c == '\U{00A0}' || c == '\U{1680}' || '\U{2000}' <= c <= '\U{200A}' ||
    c == '\U{2028}' || c == '\U{2029}' || c == '\U{202F}' || c == '\U{205F}' || c == '\U{3000}' || c == '\U{FEFF}'
  }

  predicate IsLetter(c: char) {
    'A' <= c <= 'Z' || 'a' <= c <= 'z' || c == '_'
  }

  predicate IsTagChar(c: char) {
    IsLetter(c) || '0' <= c <= '9'
  }

  predicate IsWordChar(c: char) {
    IsTagChar(c) || c == '$'
  }

  // ---------- How far each kind of text reaches ----------

  // A line comment, after its dashes, up to the end of its line.
  function LineLen(s: string): (n: nat)
    ensures n <= |s|
  {
    if s == "" || IsNewline(s[0]) then 0 else 1 + LineLen(s[1..])
  }

  function After(n: nat, rest: Option<nat>): Option<nat> {
    if rest.Some? then Some(n + rest.value) else None
  }

  // A block comment, inside `depth` openings, through the closing of the first of them.
  function BlockLen(s: string, depth: nat): (n: Option<nat>)
    ensures n.Some? ==> n.value <= |s|
  {
    if depth == 0 then Some(0)
    else if s == "" then None
    else if "/*" <= s then After(2, BlockLen(s[2..], depth + 1))
    else if "*/" <= s then After(2, BlockLen(s[2..], depth - 1))
    else After(1, BlockLen(s[1..], depth))
  }

  // The rest of a dollar tag, after its first character, through the closing dollar.
  function TagRest(s: string): (n: Option<nat>)
    ensures n.Some? ==> 1 <= n.value <= |s|
  {
    if s == "" then None
    else if s[0] == '$' then Some(1)
    else if IsTagChar(s[0]) then After(1, TagRest(s[1..]))
    else None
  }

  // A dollar tag, after its opening dollar.
  function TagLen(s: string): (n: Option<nat>)
    ensures n.Some? ==> 1 <= n.value <= |s|
  {
    if s == "" then None
    else if s[0] == '$' then Some(1)
    else if IsLetter(s[0]) then After(1, TagRest(s[1..]))
    else None
  }

  // The first place at which `pattern` occurs.
  function IndexOf(s: string, pattern: string): (n: Option<nat>)
    ensures n.Some? ==> n.value + |pattern| <= |s|
  {
    if pattern <= s then Some(0) else if s == "" then None else After(1, IndexOf(s[1..], pattern))
  }

  // A dollar-quoted body with both its delimiters; None when it is never closed.
  function DollarLen(s: string, tag: nat): (n: Option<nat>)
    requires 1 <= tag && tag + 1 <= |s|
    ensures n.Some? ==> 2 <= n.value <= |s|
  {
    var delimiter, rest := s[..tag + 1], s[tag + 1..];
    var body := IndexOf(rest, delimiter);
    if body.Some? then Some(2 * (tag + 1) + body.value) else None
  }

  // A quoted literal, after its opening quote, through its closing quote. A doubled quote stands for one.
  function QuoteLen(s: string, escapes: bool): (n: Option<nat>)
    ensures n.Some? ==> 1 <= n.value <= |s|
  {
    if s == "" then None
    else if s[0] == '\\' && escapes && |s| >= 2 then After(2, QuoteLen(s[2..], escapes))
    else if s[0] == '\'' then if |s| >= 2 && s[1] == '\'' then After(2, QuoteLen(s[2..], escapes)) else Some(1)
    else After(1, QuoteLen(s[1..], escapes))
  }

  // A quoted identifier, after its opening quote. The end of the input closes it too when the last character is a
  // quote.
  function NameLen(s: string, afterQuote: bool): (n: Option<nat>)
    ensures n.Some? ==> n.value <= |s|
  {
    if s == "" then if afterQuote then Some(0) else None
    else if s[0] == '"' then if |s| >= 2 && s[1] == '"' then After(2, NameLen(s[2..], true)) else Some(1)
    else After(1, NameLen(s[1..], false))
  }

  function WordLen(s: string): (n: nat)
    ensures n <= |s|
  {
    if s == "" || !IsWordChar(s[0]) then 0 else 1 + WordLen(s[1..])
  }

  // ---------- Pieces ----------

  // A literal may have a prefix of one or two characters before its quote.
  datatype Kind = Space | Comment | Dollar | Literal(prefixed: bool) | Name | Word | Mark

  predicate Hidden(kind: Kind) {
    kind.Comment? || kind.Dollar? || kind.Literal? || kind.Name?
  }

  datatype Piece = Piece(kind: Kind, length: nat)

  predicate AllowsEscapes(c: char) {
    c == 'E' || c == 'e'
  }

  // How many characters stand before the opening quote of a literal; None when no literal starts here.
  function QuotePrefix(s: string): (n: Option<nat>)
    ensures n.Some? ==> n.value < |s|
  {
    if s == "" then None
    else if s[0] == '\'' then Some(0)
    else if s[0] in "EeBbXx" && |s| >= 2 && s[1] == '\'' then Some(1)
    else if s[0] in "Uu" && |s| >= 3 && s[1] == '&' && s[2] == '\'' then Some(2)
    else None
  }

  function Hide(kind: Kind, before: nat, n: Option<nat>): Option<Piece> {
    if n.Some? then Some(Piece(kind, before + n.value)) else None
  }

  // The piece at the front of `s`; None when it is refused.
  function Next(s: string): (p: Option<Piece>)
    requires s != ""
    ensures p.Some? ==> 1 <= p.value.length <= |s|
  {
    if IsSpace(s[0]) then Some(Piece(Space, 1))
    else if "--" <= s then Some(Piece(Comment, 2 + LineLen(s[2..])))
    else if "/*" <= s then Hide(Comment, 2, BlockLen(s[2..], 1))
    else if s[0] == '$' && TagLen(s[1..]).Some? then Hide(Dollar, 0, DollarLen(s, TagLen(s[1..]).value))
    else if QuotePrefix(s).Some? then
      var prefix := QuotePrefix(s).value;
      Hide(Literal(prefix > 0), prefix + 1, QuoteLen(s[prefix + 1..], AllowsEscapes(s[0])))
    else if s[0] == '"' then Hide(Name, 1, NameLen(s[1..], true))
    else if IsLetter(s[0]) then Some(Piece(Word, WordLen(s)))
    else Some(Piece(Mark, 1))
  }

  function Shown(kind: Kind, text: string): string {
    if Hidden(kind) then " " else text
  }

  // What stays visible: every hidden piece becomes one space.
  function Masked(s: string): Option<string>
    decreases |s|
  {
    if s == "" then Some("")
    else
      var p := Next(s);
      if p.None? then None
      else
        var rest := Masked(s[p.value.length..]);
        if rest.None? then None
        else Some(Shown(p.value.kind, s[..p.value.length]) + rest.value)
  }

  // ---------- Reading each kind of text ----------

  // The text a literal stands for, read after its opening quote.
  function Unquoted(s: string, escapes: bool): string {
    if s == "" then ""
    else if s[0] == '\\' && escapes && |s| >= 2 then [s[1]] + Unquoted(s[2..], escapes)
    else if s[0] == '\'' then if |s| >= 2 && s[1] == '\'' then "'" + Unquoted(s[2..], escapes) else ""
    else [s[0]] + Unquoted(s[1..], escapes)
  }

  lemma Tails(s: string, i: nat)
    requires i < |s|
    ensures s[i..][0] == s[i] && s[i..][1..] == s[i + 1..]
    ensures i + 2 <= |s| ==> s[i..][1] == s[i + 1] && s[i..][2..] == s[i + 2..]
    ensures i + 3 <= |s| ==> s[i..][2] == s[i + 2]
    ensures "--" <= s[i..] <==> i + 2 <= |s| && s[i] == '-' && s[i + 1] == '-'
    ensures "/*" <= s[i..] <==> i + 2 <= |s| && s[i] == '/' && s[i + 1] == '*'
    ensures "*/" <= s[i..] <==> i + 2 <= |s| && s[i] == '*' && s[i + 1] == '/'
  {
  }

  function Joined(a: string, b: string): string {
    a + b
  }

  lemma JoinedMore(a: string, c: char, b: string)
    ensures Joined(a, [c] + b) == Joined(a + [c], b) && Joined(a, "") == a && Joined("", b) == b
  {
  }

  predicate HasBackslash(s: string, start: nat, end: nat) requires start <= end <= |s| {
    '\\' in s[start..end]
  }

  lemma BackslashesAdd(s: string, start: nat, middle: nat, end: nat)
    requires start <= middle <= end <= |s|
    ensures HasBackslash(s, start, end) <==> HasBackslash(s, start, middle) || HasBackslash(s, middle, end)
  {
    assert s[start..end] == s[start..middle] + s[middle..end];
  }

  predicate TwoAt(s: string, i: nat, c: char, d: char) {
    i + 2 <= |s| && s[i] == c && s[i + 1] == d
  }

  // Where the literal whose inside goes on at index i ends, and what is left of its value.
  function QuoteEnd(sql: string, i: nat, escapes: bool): Option<nat> requires i <= |sql| {
    After(i, QuoteLen(sql[i..], escapes))
  }

  function Remaining(sql: string, i: nat, escapes: bool): string requires i <= |sql| {
    Unquoted(sql[i..], escapes)
  }

  // One step of a literal, at an index of the whole input.
  lemma QuoteStep(sql: string, i: nat, escapes: bool)
    requires i < |sql|
    ensures var skip, doubled := sql[i] == '\\' && escapes && i + 1 < |sql|, TwoAt(sql, i, '\'', '\'');
            if skip || doubled then
              QuoteEnd(sql, i, escapes) == QuoteEnd(sql, i + 2, escapes) &&
              Remaining(sql, i, escapes) == [sql[i + 1]] + Remaining(sql, i + 2, escapes)
            else if sql[i] == '\'' then
              QuoteEnd(sql, i, escapes) == Some(i + 1) && Remaining(sql, i, escapes) == ""
            else
              QuoteEnd(sql, i, escapes) == QuoteEnd(sql, i + 1, escapes) &&
              Remaining(sql, i, escapes) == [sql[i]] + Remaining(sql, i + 1, escapes)
  {
    Tails(sql, i);
  }

  lemma QuoteStops(sql: string, escapes: bool)
    ensures QuoteEnd(sql, |sql|, escapes).None?
  {
  }

  lemma BlockStep(sql: string, i: nat, depth: nat)
    requires i < |sql| && depth > 0
    ensures BlockLen(sql[i..], depth) ==
            if TwoAt(sql, i, '/', '*') then After(2, BlockLen(sql[i + 2..], depth + 1))
            else if TwoAt(sql, i, '*', '/') then After(2, BlockLen(sql[i + 2..], depth - 1))
            else After(1, BlockLen(sql[i + 1..], depth))
  {
    Tails(sql, i);
  }

  lemma NameStep(sql: string, i: nat, afterQuote: bool)
    requires i < |sql|
    ensures NameLen(sql[i..], afterQuote) ==
            if TwoAt(sql, i, '"', '"') then After(2, NameLen(sql[i + 2..], true))
            else if sql[i] == '"' then Some(1)
            else After(1, NameLen(sql[i + 1..], false))
  {
    Tails(sql, i);
  }

  lemma Ends(s: string, escapes: bool, depth: nat, afterQuote: bool)
    ensures QuoteLen(s[|s|..], escapes).None? && Unquoted(s[|s|..], escapes) == ""
    ensures depth > 0 ==> BlockLen(s[|s|..], depth).None?
    ensures BlockLen(s, 0) == Some(0)
    ensures NameLen(s[|s|..], afterQuote) == if afterQuote then Some(0) else None
  {
  }

  // The character that stands at `index` inside a literal, and how much text it takes; None when the literal ends here.
  method ReadQuotedCharacter(sql: string, index: nat, escapes: bool) returns (read: Option<char>, width: nat)
    requires index < |sql|
    ensures read.None? ==> QuoteEnd(sql, index, escapes) == Some(index + 1) && Remaining(sql, index, escapes) == ""
    ensures read.Some? ==>
              index < index + width <= |sql| &&
              QuoteEnd(sql, index, escapes) == QuoteEnd(sql, index + width, escapes) &&
              Remaining(sql, index, escapes) == [read.value] + Remaining(sql, index + width, escapes)
    ensures sql[index] == '\\' ==> read.Some?
    ensures read.Some? ==> (HasBackslash(sql, index, index + width) <==> sql[index] == '\\')
    ensures read.None? ==> !HasBackslash(sql, index, index + 1)
  {
    QuoteStep(sql, index, escapes);
    hide QuoteEnd, Remaining;
    var character := sql[index];
    if character == '\\' {
      if escapes && index + 1 < |sql| { return Some(sql[index + 1]), 2; }
      return Some(character), 1;
    }
    if character == '\'' {
      if index + 1 < |sql| && sql[index + 1] == '\'' { return Some('\''), 2; }
      return None, 1;
    }
    read, width := Some(character), 1;
  }

  // What has been read of the literal whose inside starts at `from` once its reading has come to `index`.
  predicate ReadSoFar(sql: string, from: nat, index: nat, escapes: bool, value: string, hadBackslash: bool)
    requires from <= index <= |sql|
  {
    QuoteEnd(sql, from, escapes) == QuoteEnd(sql, index, escapes) &&
    Remaining(sql, from, escapes) == Joined(value, Remaining(sql, index, escapes)) &&
    (hadBackslash <==> HasBackslash(sql, from, index))
  }

  lemma NothingReadYet(sql: string, from: nat, escapes: bool)
    requires from <= |sql|
    ensures ReadSoFar(sql, from, from, escapes, "", false)
  {
    hide QuoteEnd, Remaining;
    JoinedMore("", ' ', Remaining(sql, from, escapes));
    assert !HasBackslash(sql, from, from);
  }

  lemma OneMoreRead(sql: string, from: nat, index: nat, width: nat, escapes: bool, value: string, c: char, had: bool)
    requires from <= index < index + width <= |sql| && ReadSoFar(sql, from, index, escapes, value, had)
    requires QuoteEnd(sql, index, escapes) == QuoteEnd(sql, index + width, escapes)
    requires Remaining(sql, index, escapes) == [c] + Remaining(sql, index + width, escapes)
    requires HasBackslash(sql, index, index + width) <==> sql[index] == '\\'
    ensures ReadSoFar(sql, from, index + width, escapes, value + [c], had || sql[index] == '\\')
  {
    hide QuoteEnd, Remaining, HasBackslash, Joined;
    JoinedMore(value, c, Remaining(sql, index + width, escapes));
    BackslashesAdd(sql, from, index, index + width);
  }

  lemma AllRead(sql: string, from: nat, index: nat, escapes: bool, value: string, had: bool)
    requires from <= index < |sql| && ReadSoFar(sql, from, index, escapes, value, had)
    requires QuoteEnd(sql, index, escapes) == Some(index + 1) && Remaining(sql, index, escapes) == ""
    requires !HasBackslash(sql, index, index + 1)
    ensures After(from, QuoteLen(sql[from..], escapes)) == Some(index + 1) && value == Unquoted(sql[from..], escapes)
    ensures had <==> HasBackslash(sql, from, index + 1)
  {
    assert QuoteEnd(sql, from, escapes) == After(from, QuoteLen(sql[from..], escapes));
    assert Remaining(sql, from, escapes) == Unquoted(sql[from..], escapes);
    hide QuoteEnd, Remaining, HasBackslash, Joined, QuoteLen, Unquoted;
    JoinedMore(value, ' ', "");
    BackslashesAdd(sql, from, index, index + 1);
  }

  lemma NeverClosed(sql: string, from: nat, escapes: bool, value: string, had: bool)
    requires from <= |sql| && ReadSoFar(sql, from, |sql|, escapes, value, had)
    ensures After(from, QuoteLen(sql[from..], escapes)).None?
  {
    assert QuoteEnd(sql, from, escapes) == After(from, QuoteLen(sql[from..], escapes));
    hide QuoteEnd;
    QuoteStops(sql, escapes);
  }

  // Reads a literal whose opening quote is at `start`: its value, where it ends, and whether it holds a backslash.
  method ReadSingleQuoted(sql: string, start: nat, escapes: bool)
    returns (next: Option<nat>, value: string, hadBackslash: bool)
    requires start < |sql|
    ensures next == After(start + 1, QuoteLen(sql[start + 1..], escapes))
    ensures next.Some? ==>
              start < next.value <= |sql| && value == Unquoted(sql[start + 1..], escapes) &&
              hadBackslash == HasBackslash(sql, start + 1, next.value)
  {
    hide ReadSoFar, HasBackslash, QuoteEnd, Remaining, QuoteLen, Unquoted, After;
    value, hadBackslash := "", false;
    var index := start + 1;
    NothingReadYet(sql, index, escapes);
    while index < |sql|
      invariant start < index <= |sql|
      invariant ReadSoFar(sql, start + 1, index, escapes, value, hadBackslash)
      decreases |sql| - index
    {
      var read, width := ReadQuotedCharacter(sql, index, escapes);
      if read.None? {
        AllRead(sql, start + 1, index, escapes, value, hadBackslash);
        return Some(index + 1), value, hadBackslash;
      }
      OneMoreRead(sql, start + 1, index, width, escapes, value, read.value, hadBackslash);
      if sql[index] == '\\' { hadBackslash := true; }
      value := value + [read.value];
      index := index + width;
    }
    NeverClosed(sql, start + 1, escapes, value, hadBackslash);
    next := None;
  }

  method SkipLine(sql: string, start: nat) returns (end: nat)
    requires start <= |sql|
    ensures end == start + LineLen(sql[start..]) && end <= |sql|
  {
    end := start;
    while end < |sql| && !IsNewline(sql[end])
      invariant start <= end <= |sql|
      invariant start + LineLen(sql[start..]) == end + LineLen(sql[end..])
    {
      Tails(sql, end);
      end := end + 1;
    }
  }

  method SkipBlock(sql: string, start: nat) returns (end: Option<nat>)
    requires start <= |sql|
    ensures end == After(start, BlockLen(sql[start..], 1))
  {
    hide BlockLen;
    var index, depth: nat := start, 1;
    while index < |sql| && depth > 0
      invariant start <= index <= |sql|
      invariant After(start, BlockLen(sql[start..], 1)) == After(index, BlockLen(sql[index..], depth))
      decreases |sql| - index
    {
      BlockStep(sql, index, depth);
      if sql[index] == '/' && index + 1 < |sql| && sql[index + 1] == '*' {
        depth := depth + 1;
        index := index + 2;
      } else if sql[index] == '*' && index + 1 < |sql| && sql[index + 1] == '/' {
        depth := depth - 1;
        index := index + 2;
      } else {
        index := index + 1;
      }
    }
    Ends(sql, false, depth, false);
    assert BlockLen(sql[index..], 0) == Some(0) by { Ends(sql[index..], false, 0, false); }
    if depth != 0 { return None; }
    end := Some(index);
  }

  method SkipName(sql: string, start: nat) returns (end: Option<nat>)
    requires start < |sql| && sql[start] == '"'
    ensures end == After(start + 1, NameLen(sql[start + 1..], true))
  {
    hide NameLen;
    var index := start + 1;
    while index < |sql|
      invariant start < index <= |sql|
      invariant After(start + 1, NameLen(sql[start + 1..], true)) ==
                After(index, NameLen(sql[index..], sql[index - 1] == '"'))
      decreases |sql| - index
    {
      NameStep(sql, index, sql[index - 1] == '"');
      if sql[index] == '"' && index + 1 < |sql| && sql[index + 1] == '"' {
        index := index + 2;
      } else if sql[index] == '"' {
        return Some(index + 1);
      } else {
        index := index + 1;
      }
    }
    Ends(sql, false, 0, sql[index - 1] == '"');
    if sql[index - 1] != '"' { return None; }
    end := Some(index);
  }

  function Prepend(shown: string, rest: Option<string>): Option<string> {
    if rest.Some? then Some(shown + rest.value) else None
  }

  // ---------- Statements ----------

  // What a migration may define, as tables of digests say in the source.
  datatype Rules = Rules(
    routineName: string -> Option<string>, // the name in the visible text of a definition before its body
    pinnedTrigger: (string, string) -> bool) // whether a trigger of this name may be defined by this text

  // The first words of the statement in upper case, and its text from the first word on. A literal with a prefix counts
  // as a word, even beyond the sixth.
  datatype Statement = Statement(words: seq<string>, raw: Option<string>)

  const MAX_WORDS: nat := 6

  // `definition` is the text of the whole statement, once it has ended.
  datatype Routine = Routine(name: string, body: string, definition: Option<string>)

  // `shown` is what is visible of the statement so far; `pending` says that its routine has a body.
  datatype State = State(statement: Statement, shown: string, previous: string, pending: bool, routines: seq<Routine>)

  const START: State := State(Statement([], None), "", "", false, [])

  function UpperChar(c: char): char {
    if 'a' <= c <= 'z' then c - 'a' + 'A' else c
  }

  function Upper(s: string): string {
    seq(|s|, i requires 0 <= i < |s| => UpperChar(s[i]))
  }

  function Grow(raw: Option<string>, text: string): Option<string> {
    if raw.Some? then Some(raw.value + text) else None
  }

  function Extend(t: Statement, kind: Kind, text: string): Statement {
    match kind
    case Word =>
      Statement(if |t.words| < MAX_WORDS then t.words + [Upper(text)] else t.words,
                if t.words == [] then Some(text) else Grow(t.raw, text))
    case Literal(prefixed) => Statement(if prefixed then t.words + ["STRING"] else t.words, Grow(t.raw, text))
    case _ => Statement(t.words, Grow(t.raw, text))
  }

  predicate DefinesRoutine(words: seq<string>) {
    words != [] && words[0] == "CREATE" &&
    exists i :: 1 <= i < |words| && i < 5 && (words[i] == "FUNCTION" || words[i] == "PROCEDURE")
  }

  predicate DefinesTrigger(words: seq<string>) {
    |words| >= 2 && words[0] == "CREATE" && words[1] == "TRIGGER"
  }

  predicate Pinned(rules: Rules, t: Statement) {
    |t.words| > 2 && t.raw.Some? && rules.pinnedTrigger(t.words[2], t.raw.value)
  }

  // A literal or dollar-quoted text here is the body of a routine.
  predicate AtBody(st: State) {
    st.previous == "AS" && DefinesRoutine(st.statement.words)
  }

  function WithDefinition(routines: seq<Routine>, raw: Option<string>): seq<Routine> {
    if routines == [] then [] else routines[|routines| - 1 := routines[|routines| - 1].(definition := raw)]
  }

  // At the end of a statement; None when it is refused.
  function Complete(rules: Rules, st: State): Option<State> {
    if DefinesRoutine(st.statement.words) && !st.pending then None
    else if DefinesTrigger(st.statement.words) && !Pinned(rules, st.statement) then None
    else Some(START.(routines := if st.pending then WithDefinition(st.routines, st.statement.raw) else st.routines))
  }

  // After one piece; None when it is refused. `body` is what a literal or dollar-quoted text stands for.
  function Advance(rules: Rules, st: State, kind: Kind, text: string, body: string): Option<State> {
    var next :=
      st.(statement := Extend(st.statement, kind, text), shown := st.shown + Shown(kind, text), previous := "");
    match kind
    case Space => Some(next.(previous := st.previous))
    case Comment => Some(next.(previous := st.previous))
    case Word => Some(next.(previous := Upper(text)))
    case Name => Some(next)
    case Mark => if text == ";" then Complete(rules, next) else Some(next)
    case _ =>
      if !AtBody(st) then Some(next)
      else if (kind.Literal? && '\\' in text) || rules.routineName(st.shown).None? || st.pending then None
      else Some(next.(pending := true,
                      routines := st.routines + [Routine(rules.routineName(st.shown).value, body, None)]))
  }

  // What the literal or dollar-quoted text at the front of `s` stands for.
  function Body(s: string, kind: Kind): string {
    match kind
    case Literal(_) =>
      if QuotePrefix(s).Some? then Unquoted(s[QuotePrefix(s).value + 1..], AllowsEscapes(s[0])) else ""
    case Dollar =>
      if s == "" || TagLen(s[1..]).None? then ""
      else
        var bodyStart := TagLen(s[1..]).value + 1;
        var end := IndexOf(s[bodyStart..], s[..bodyStart]);
        if end.Some? then s[bodyStart..][..end.value] else ""
    case _ => ""
  }

  // ---------- The scanner ----------

  datatype Scanned = Scanned(visible: string, routines: seq<Routine>)

  function ShownBefore(shown: string, rest: Option<Scanned>): Option<Scanned> {
    if rest.Some? then Some(Scanned(shown + rest.value.visible, rest.value.routines)) else None
  }

  // What scanning makes of `s` in state `st`; None when it is refused.
  function Scan(rules: Rules, st: State, s: string): Option<Scanned>
    decreases |s|
  {
    if s == "" then
      var last := Complete(rules, st);
      if last.None? then None else Some(Scanned("", last.value.routines))
    else
      var p := Next(s);
      if p.None? then None
      else
        var text := s[..p.value.length];
        var next := Advance(rules, st, p.value.kind, text, Body(s, p.value.kind));
        if next.None? then None
        else ShownBefore(Shown(p.value.kind, text), Scan(rules, next.value, s[p.value.length..]))
  }

  lemma ShownTwice(a: string, b: string, rest: Option<Scanned>)
    ensures ShownBefore(a, ShownBefore(b, rest)) == ShownBefore(a + b, rest) && ShownBefore("", rest) == rest
  {
    if rest.Some? {
      assert a + (b + rest.value.visible) == (a + b) + rest.value.visible;
      assert "" + rest.value.visible == rest.value.visible;
    }
  }

  lemma ScanFront(rules: Rules, st: State, s: string)
    requires s != "" && Next(s).Some?
    ensures var p := Next(s).value;
            var next := Advance(rules, st, p.kind, s[..p.length], Body(s, p.kind));
            Scan(rules, st, s) ==
            if next.None? then None
            else ShownBefore(Shown(p.kind, s[..p.length]), Scan(rules, next.value, s[p.length..]))
  {
    hide Next, Advance, Body;
  }

  lemma ScanStep(rules: Rules, st: State, sql: string, index: nat, end: nat, shown: string)
    requires index < end <= |sql| && Next(sql[index..]).Some? && Next(sql[index..]).value.length == end - index
    ensures var kind, text := Next(sql[index..]).value.kind, sql[index..end];
            var next := Advance(rules, st, kind, text, Body(sql[index..], kind));
            ShownBefore(shown, Scan(rules, st, sql[index..])) ==
            if next.None? then None else ShownBefore(shown + Shown(kind, text), Scan(rules, next.value, sql[end..]))
  {
    hide Next, Advance, Body, Scan, ShownBefore, Shown;
    var s := sql[index..];
    assert s[..end - index] == sql[index..end] && s[end - index..] == sql[end..];
    ScanFront(rules, st, s);
    var kind, text := Next(s).value.kind, sql[index..end];
    var next := Advance(rules, st, kind, text, Body(s, kind));
    if next.Some? {
      ShownTwice(shown, Shown(kind, text), Scan(rules, next.value, sql[end..]));
    }
    assert ShownBefore(shown, None).None? by { NothingShown(shown); }
  }

  lemma NothingShown(shown: string)
    ensures ShownBefore(shown, None).None?
  {
  }

  function RawFrom(sql: string, firstWord: Option<nat>, end: nat): Option<string>
    requires end <= |sql| && (firstWord.Some? ==> firstWord.value <= end)
  {
    if firstWord.Some? then Some(sql[firstWord.value..end]) else None
  }

  lemma RawGrows(sql: string, firstWord: Option<nat>, index: nat, end: nat)
    requires index <= end <= |sql| && (firstWord.Some? ==> firstWord.value <= index)
    ensures RawFrom(sql, firstWord, end) == Grow(RawFrom(sql, firstWord, index), sql[index..end])
  {
    if firstWord.Some? {
      assert sql[firstWord.value..end] == sql[firstWord.value..index] + sql[index..end];
    }
  }

  // Ends the statement whose first word is at `firstWord`.
  method FinishStatement(rules: Rules, sql: string, end: nat, words: seq<string>, firstWord: Option<nat>, pending: bool,
                         routines: seq<Routine>) returns (finished: Option<seq<Routine>>)
    requires end <= |sql| && (firstWord.Some? ==> firstWord.value <= end)
    ensures forall shown, previous ::
              Complete(rules, State(Statement(words, RawFrom(sql, firstWord, end)), shown, previous, pending,
                                    routines)) ==
              if finished.Some? then Some(START.(routines := finished.value)) else None
  {
    if DefinesRoutine(words) && !pending { return None; }
    var definition := RawFrom(sql, firstWord, end);
    var defined := if pending then WithDefinition(routines, definition) else routines;
    if DefinesTrigger(words) && !(|words| > 2 && definition.Some? && rules.pinnedTrigger(words[2], definition.value)) {
      return None;
    }
    finished := Some(defined);
  }

  // Scans the whole input; None when it is refused.
  method ScanSql(rules: Rules, sql: string) returns (scanned: Option<Scanned>)
    ensures scanned == Scan(rules, START, sql)
  {
    hide Scan, Advance, Body, Next, ShownBefore, Shown, Extend, Complete;
    var visible, previousWord := "", "";
    var routines: seq<Routine>, words: seq<string> := [], [];
    var statementStart: nat, index: nat := 0, 0;
    var firstWord: Option<nat> := None;
    var pending := false;
    assert sql[0..] == sql;
    ShownTwice("", "", Scan(rules, START, sql));
    while index < |sql|
      invariant index <= |sql| && statementStart <= |visible| && (firstWord.Some? ==> firstWord.value <= index)
      invariant var st :=
                  State(Statement(words, RawFrom(sql, firstWord, index)), visible[statementStart..], previousWord,
                        pending, routines);
                Scan(rules, START, sql) == ShownBefore(visible, Scan(rules, st, sql[index..]))
      decreases |sql| - index
    {
      ghost var st :=
        State(Statement(words, RawFrom(sql, firstWord, index)), visible[statementStart..], previousWord, pending,
              routines);
      var kind, end, body, hadBackslash := NextPiece(sql, index);
      if end.None? {
        assert Scan(rules, st, sql[index..]).None? by { RefusedPiece(rules, st, sql[index..]); }
        NothingShown(visible);
        return None;
      }
      var text := sql[index..end.value];
      ScanStep(rules, st, sql, index, end.value, visible);
      RawGrows(sql, firstWord, index, end.value);
      AdvanceStep(rules, st, kind, text, body);
      var name := rules.routineName(visible[statementStart..]);
      if (kind.Dollar? || kind.Literal?) && previousWord == "AS" && DefinesRoutine(words) {
        if (kind.Literal? && hadBackslash) || name.None? || pending { return None; }
        routines := routines + [Routine(name.value, body, None)];
        pending := true;
      }
      var piece := if kind.Comment? || kind.Dollar? || kind.Literal? || kind.Name? then " " else text;
      assert piece == Shown(kind, text) by { ShownPiece(kind, text); }
      assert (visible + piece)[statementStart..] == visible[statementStart..] + piece;
      visible := visible + piece;
      if kind.Word? {
        if words == [] { firstWord := Some(index); }
        if |words| < MAX_WORDS { words := words + [Upper(text)]; }
        previousWord := Upper(text);
      } else if kind.Literal? {
        if kind.prefixed { words := words + ["STRING"]; }
        previousWord := "";
      } else if !kind.Space? && !kind.Comment? {
        previousWord := "";
      }
      ghost var next :=
        State(Statement(words, RawFrom(sql, firstWord, end.value)), visible[statementStart..], previousWord, pending,
              routines);
      assert Advance(rules, st, kind, text, body) ==
             if kind.Mark? && text == ";" then Complete(rules, next) else Some(next);
      if kind.Mark? && text == ";" {
        var finished := FinishStatement(rules, sql, end.value, words, firstWord, pending, routines);
        if finished.None? { return None; }
        routines, words, firstWord, pending := finished.value, [], None, false;
        statementStart := |visible|;
        assert visible[statementStart..] == "";
      }
      index := end.value;
    }
    assert sql[index..] == "";
    var finished := FinishStatement(rules, sql, |sql|, words, firstWord, pending, routines);
    ScanEnd(rules, State(Statement(words, RawFrom(sql, firstWord, index)), visible[statementStart..], previousWord,
                         pending, routines));
    assert visible + "" == visible;
    if finished.None? { NothingShown(visible); return None; }
    scanned := Some(Scanned(visible, finished.value));
    assert ShownBefore(visible, Some(Scanned("", finished.value))) == scanned by { ShownLast(visible, finished.value); }
  }

  lemma ShownLast(visible: string, routines: seq<Routine>)
    ensures ShownBefore(visible, Some(Scanned("", routines))) == Some(Scanned(visible, routines))
  {
    assert visible + "" == visible;
  }

  lemma ShownPiece(kind: Kind, text: string)
    ensures Shown(kind, text) == if kind.Comment? || kind.Dollar? || kind.Literal? || kind.Name? then " " else text
  {
  }

  lemma ScanEnd(rules: Rules, st: State)
    ensures Scan(rules, st, "") ==
            if Complete(rules, st).None? then None else Some(Scanned("", Complete(rules, st).value.routines))
  {
    hide Complete;
  }

  lemma RefusedPiece(rules: Rules, st: State, s: string)
    requires s != "" && Next(s).None?
    ensures Scan(rules, st, s).None?
  {
  }

  // One step in terms of what changes.
  lemma AdvanceStep(rules: Rules, st: State, kind: Kind, text: string, body: string)
    ensures var words := st.statement.words;
            var statement := Statement(
              if kind.Word? && |words| < MAX_WORDS then words + [Upper(text)]
              else if kind.Literal? && kind.prefixed then words + ["STRING"] else words,
              if kind.Word? && words == [] then Some(text) else Grow(st.statement.raw, text));
            var previous :=
              if kind.Word? then Upper(text) else if kind.Space? || kind.Comment? then st.previous else "";
            var isBody := (kind.Dollar? || kind.Literal?) && st.previous == "AS" && DefinesRoutine(words);
            var name := rules.routineName(st.shown);
            var routines :=
              if isBody && name.Some? then st.routines + [Routine(name.value, body, None)] else st.routines;
            var next := State(statement, st.shown + Shown(kind, text), previous, st.pending || isBody, routines);
            Advance(rules, st, kind, text, body) ==
            if isBody && ((kind.Literal? && '\\' in text) || name.None? || st.pending) then None
            else if kind.Mark? && text == ";" then Complete(rules, next)
            else Some(next)
  {
    hide Complete, DefinesRoutine, Upper, Shown;
  }

  // The choice of the piece at an index of the whole input.
  lemma NextStep(sql: string, i: nat)
    requires i < |sql|
    ensures Next(sql[i..]) ==
            if IsSpace(sql[i]) then Some(Piece(Space, 1))
            else if TwoAt(sql, i, '-', '-') then Some(Piece(Comment, 2 + LineLen(sql[i + 2..])))
            else if TwoAt(sql, i, '/', '*') then Hide(Comment, 2, BlockLen(sql[i + 2..], 1))
            else if sql[i] == '$' && TagLen(sql[i + 1..]).Some? then
              Hide(Dollar, 0, DollarLen(sql[i..], TagLen(sql[i + 1..]).value))
            else if QuotePrefix(sql[i..]).Some? then
              var prefix := QuotePrefix(sql[i..]).value;
              Hide(Literal(prefix > 0), prefix + 1, QuoteLen(sql[i + prefix + 1..], AllowsEscapes(sql[i])))
            else if sql[i] == '"' then Hide(Name, 1, NameLen(sql[i + 1..], true))
            else if IsLetter(sql[i]) then Some(Piece(Word, WordLen(sql[i..])))
            else Some(Piece(Mark, 1))
  {
    hide LineLen, BlockLen, TagLen, DollarLen, QuoteLen, NameLen, WordLen, QuotePrefix, IsSpace;
    Tails(sql, i);
    if QuotePrefix(sql[i..]).Some? {
      var prefix := QuotePrefix(sql[i..]).value;
      assert sql[i..][prefix + 1..] == sql[i + prefix + 1..];
    }
  }

  lemma DollarStep(sql: string, i: nat, tag: nat)
    requires 1 <= tag && i + tag + 1 <= |sql|
    ensures var bodyStart := i + tag + 1;
            var body := IndexOf(sql[bodyStart..], sql[i..bodyStart]);
            DollarLen(sql[i..], tag) == if body.Some? then Some(2 * (tag + 1) + body.value) else None
  {
    hide IndexOf;
    assert sql[i..][..tag + 1] == sql[i..i + tag + 1] && sql[i..][tag + 1..] == sql[i + tag + 1..];
  }

  lemma BodyStep(sql: string, i: nat)
    requires i < |sql|
    ensures TagLen(sql[i + 1..]).Some? ==>
              var bodyStart := i + TagLen(sql[i + 1..]).value + 1;
              var end := IndexOf(sql[bodyStart..], sql[i..bodyStart]);
              end.Some? ==> Body(sql[i..], Dollar) == sql[bodyStart..bodyStart + end.value]
    ensures QuotePrefix(sql[i..]).Some? ==>
              var prefix := QuotePrefix(sql[i..]).value;
              Body(sql[i..], Literal(prefix > 0)) == Unquoted(sql[i + prefix + 1..], AllowsEscapes(sql[i]))
  {
    hide TagLen, IndexOf, Unquoted, QuotePrefix;
    Tails(sql, i);
    if QuotePrefix(sql[i..]).Some? {
      var prefix := QuotePrefix(sql[i..]).value;
      assert sql[i..][prefix + 1..] == sql[i + prefix + 1..];
    }
    if TagLen(sql[i + 1..]).Some? {
      var tag := TagLen(sql[i + 1..]).value;
      assert sql[i..][..tag + 1] == sql[i..i + tag + 1] && sql[i..][tag + 1..] == sql[i + tag + 1..];
      var end := IndexOf(sql[i + tag + 1..], sql[i..i + tag + 1]);
      if end.Some? {
        assert sql[i + tag + 1..][..end.value] == sql[i + tag + 1..i + tag + 1 + end.value];
      }
    }
  }

  // Where the dollar-quoted text at `index` ends and what stands between its delimiters; no end when it has none.
  method ReadDollarQuoted(sql: string, index: nat) returns (end: Option<nat>, body: string)
    requires index < |sql| && TagLen(sql[index + 1..]).Some?
    ensures DollarLen(sql[index..], TagLen(sql[index + 1..]).value).Some? <==> end.Some?
    ensures end.Some? ==> index < end.value <= |sql| && body == Body(sql[index..], Dollar)
    ensures end.Some? ==> DollarLen(sql[index..], TagLen(sql[index + 1..]).value) == Some(end.value - index)
  {
    hide DollarLen, IndexOf, Body, TagLen;
    var tag := TagLen(sql[index + 1..]).value;
    var bodyStart := index + tag + 1;
    var delimiter := sql[index..bodyStart];
    var bodyEnd := IndexOf(sql[bodyStart..], delimiter);
    DollarStep(sql, index, tag);
    BodyStep(sql, index);
    if bodyEnd.None? { return None, ""; }
    end := Some(bodyStart + bodyEnd.value + |delimiter|);
    body := sql[bodyStart..bodyStart + bodyEnd.value];
  }

  // What the piece at `index` is, where it ends, and what it stands for if it is quoted; no end when it is refused.
  method NextPiece(sql: string, index: nat) returns (kind: Kind, end: Option<nat>, body: string, hadBackslash: bool)
    requires index < |sql|
    ensures Next(sql[index..]).Some? <==> end.Some?
    ensures end.Some? ==> index < end.value <= |sql| && Next(sql[index..]).value == Piece(kind, end.value - index)
    ensures end.Some? ==> body == Body(sql[index..], kind)
    ensures end.Some? && kind.Literal? ==> (hadBackslash <==> HasBackslash(sql, index, end.value))
  {
    hide HasBackslash, Hidden, Next, LineLen, BlockLen, TagLen, IndexOf, DollarLen, QuoteLen, NameLen, WordLen,
         QuotePrefix, Unquoted, Body, IsSpace;
    NextStep(sql, index);
    BodyStep(sql, index);
    UnquotedKindsHaveNoBody(sql[index..]);
    var character := sql[index];
    body, hadBackslash := "", false;
    if IsSpace(character) { return Space, Some(index + 1), "", false; }
    if character == '-' && index + 1 < |sql| && sql[index + 1] == '-' {
      var stop := SkipLine(sql, index + 2);
      return Comment, Some(stop), "", false;
    }
    if character == '/' && index + 1 < |sql| && sql[index + 1] == '*' {
      kind := Comment;
      end := SkipBlock(sql, index + 2);
      return;
    }
    if character == '$' && TagLen(sql[index + 1..]).Some? {
      kind := Dollar;
      end, body := ReadDollarQuoted(sql, index);
      return;
    }
    var prefix := QuotePrefix(sql[index..]);
    if prefix.Some? {
      kind := Literal(prefix.value > 0);
      end, body, hadBackslash := ReadSingleQuoted(sql, index + prefix.value, AllowsEscapes(character));
      if end.Some? { PrefixHasNoBackslash(sql, index, prefix.value, end.value); }
      return;
    }
    if character == '"' {
      kind := Name;
      end := SkipName(sql, index);
      return;
    }
    if IsLetter(character) {
      var length := WordLen(sql[index..]);
      assert length >= 1 by { LettersMakeWords(sql[index..]); }
      return Word, Some(index + length), "", false;
    }
    return Mark, Some(index + 1), "", false;
  }

  lemma PrefixHasNoBackslash(sql: string, index: nat, prefix: nat, end: nat)
    requires index < |sql| && QuotePrefix(sql[index..]) == Some(prefix) && index + prefix + 1 <= end <= |sql|
    ensures HasBackslash(sql, index, end) <==> HasBackslash(sql, index + prefix + 1, end)
  {
    Tails(sql, index);
    assert sql[index..end] == sql[index..index + prefix + 1] + sql[index + prefix + 1..end];
    assert forall i :: 0 <= i < prefix + 1 ==> sql[index..index + prefix + 1][i] == sql[index..][i];
  }

  lemma UnquotedKindsHaveNoBody(s: string)
    ensures Body(s, Space) == Body(s, Comment) == Body(s, Name) == Body(s, Word) == Body(s, Mark) == ""
  {
  }

  lemma LettersMakeWords(s: string)
    requires s != "" && IsLetter(s[0])
    ensures WordLen(s) >= 1
  {
  }

  // ---------- Hidden text does not show ----------

  // How a hidden piece may begin: with a mark, or with a letter that a quote or an ampersand follows.
  predicate Edge(x: string) {
    x != "" && x[0] != '&' && (IsTagChar(x[0]) ==> |x| >= 2 && !IsWordChar(x[1]))
  }

  predicate SameEdge(x: string, y: string) {
    Edge(x) && Edge(y) && x[0] == y[0]
  }

  lemma HiddenPieceIsEdge(x: string)
    requires x != "" && Next(x).Some? && Hidden(Next(x).value.kind)
    ensures Edge(x)
  {
    hide LineLen, BlockLen, TagLen, DollarLen, QuoteLen, NameLen, WordLen;
  }

  lemma {:induction false} LineIsLocal(p: string, x: string, y: string)
    requires SameEdge(x, y) && LineLen(p + x) <= |p|
    ensures LineLen(p + y) == LineLen(p + x)
    decreases |p|
  {
    if p == "" {
      assert p + x == x && p + y == y;
    } else if !IsNewline(p[0]) {
      assert (p + x)[1..] == p[1..] + x && (p + y)[1..] == p[1..] + y;
      LineIsLocal(p[1..], x, y);
    }
  }

  lemma {:induction false} BlockIsLocal(p: string, x: string, y: string, depth: nat)
    requires SameEdge(x, y) && BlockLen(p + x, depth).Some? && BlockLen(p + x, depth).value <= |p|
    ensures BlockLen(p + y, depth) == BlockLen(p + x, depth)
    decreases |p|
  {
    if p == "" {
      assert p + x == x && p + y == y;
    } else if depth > 0 {
      assert (p + x)[1..] == p[1..] + x && (p + y)[1..] == p[1..] + y;
      assert "/*" <= p + x <==> "/*" <= p + y;
      assert "*/" <= p + x <==> "*/" <= p + y;
      if "/*" <= p + x || "*/" <= p + x {
        assert (p + x)[2..] == p[2..] + x && (p + y)[2..] == p[2..] + y;
        BlockIsLocal(p[2..], x, y, if "/*" <= p + x then depth + 1 else depth - 1);
      } else {
        BlockIsLocal(p[1..], x, y, depth);
      }
    }
  }

  lemma {:induction false} TagRestIsLocal(p: string, x: string, y: string)
    requires SameEdge(x, y) && (TagRest(p + x).Some? ==> TagRest(p + x).value <= |p|)
    ensures TagRest(p + y) == TagRest(p + x)
    decreases |p|
  {
    if p == "" {
      assert p + x == x && p + y == y;
      if IsTagChar(x[0]) {
        assert TagRest(x[1..]).None? && TagRest(y[1..]).None?;
      }
    } else {
      assert (p + x)[1..] == p[1..] + x && (p + y)[1..] == p[1..] + y;
      if p[0] != '$' && IsTagChar(p[0]) {
        TagRestIsLocal(p[1..], x, y);
      }
    }
  }

  lemma TagIsLocal(p: string, x: string, y: string)
    requires SameEdge(x, y) && (TagLen(p + x).Some? ==> TagLen(p + x).value <= |p|)
    ensures TagLen(p + y) == TagLen(p + x)
  {
    if p == "" {
      assert p + x == x && p + y == y;
      if IsTagChar(x[0]) {
        assert TagRest(x[1..]).None? && TagRest(y[1..]).None?;
      }
    } else {
      assert (p + x)[1..] == p[1..] + x && (p + y)[1..] == p[1..] + y;
      if p[0] != '$' && IsLetter(p[0]) {
        TagRestIsLocal(p[1..], x, y);
      }
    }
  }

  lemma {:induction false} IndexIsLocal(p: string, x: string, y: string, pattern: string)
    requires IndexOf(p + x, pattern).Some? && IndexOf(p + x, pattern).value + |pattern| <= |p|
    ensures IndexOf(p + y, pattern) == IndexOf(p + x, pattern)
    decreases |p|
  {
    assert pattern <= p + x <==> pattern <= p;
    assert pattern <= p + y <==> pattern <= p;
    if pattern <= p {
    } else {
      assert (p + x)[1..] == p[1..] + x && (p + y)[1..] == p[1..] + y;
      IndexIsLocal(p[1..], x, y, pattern);
    }
  }

  lemma {:induction false} QuoteIsLocal(p: string, x: string, y: string, escapes: bool)
    requires SameEdge(x, y) && QuoteLen(p + x, escapes).Some? && QuoteLen(p + x, escapes).value <= |p|
    ensures QuoteLen(p + y, escapes) == QuoteLen(p + x, escapes)
    decreases |p|
  {
    assert (p + x)[1..] == p[1..] + x && (p + y)[1..] == p[1..] + y;
    assert (p + x)[1] == (p + y)[1];
    if (p[0] == '\\' && escapes) || (p[0] == '\'' && (p + x)[1] == '\'') {
      assert (p + x)[2..] == p[2..] + x && (p + y)[2..] == p[2..] + y;
      QuoteIsLocal(p[2..], x, y, escapes);
    } else if p[0] != '\'' {
      QuoteIsLocal(p[1..], x, y, escapes);
    }
  }

  lemma EdgesBeginAlike(x: string, y: string)
    requires SameEdge(x, y)
    ensures x != "" && y != "" && x[0] == y[0]
  {
  }

  lemma {:induction false} NameIsLocal(p: string, x: string, y: string, afterQuote: bool)
    requires SameEdge(x, y) && NameLen(p + x, afterQuote).Some? && NameLen(p + x, afterQuote).value <= |p|
    ensures NameLen(p + y, afterQuote) == NameLen(p + x, afterQuote)
    decreases |p|
  {
    hide NameLen, SameEdge, Edge;
    EdgesBeginAlike(x, y);
    var a, b := p + x, p + y;
    assert a[0..] == a && b[0..] == b && "" + x == x;
    NameStep(a, 0, afterQuote);
    NameStep(b, 0, afterQuote);
    assert p != "" && a[1] == b[1];
    assert a[1..] == p[1..] + x && b[1..] == p[1..] + y;
    if TwoAt(a, 0, '"', '"') {
      assert a[2..] == p[2..] + x && b[2..] == p[2..] + y;
      NameIsLocal(p[2..], x, y, true);
    } else if p[0] != '"' {
      NameIsLocal(p[1..], x, y, false);
    }
  }

  lemma {:induction false} WordIsLocal(p: string, x: string, y: string)
    requires SameEdge(x, y) && WordLen(p + x) <= |p|
    ensures WordLen(p + y) == WordLen(p + x)
    decreases |p|
  {
    if p == "" {
      assert p + x == x && p + y == y;
    } else if IsWordChar(p[0]) {
      assert (p + x)[1..] == p[1..] + x && (p + y)[1..] == p[1..] + y;
      WordIsLocal(p[1..], x, y);
    }
  }

  lemma PrefixIsLocal(p: string, x: string, y: string)
    requires p != "" && SameEdge(x, y)
    ensures QuotePrefix(p + y) == QuotePrefix(p + x)
  {
    assert (p + x)[0] == (p + y)[0] && (p + x)[1] == (p + y)[1];
    if |p| >= 2 {
      assert (p + x)[2] == (p + y)[2];
    }
  }

  // A piece that ends within `p` is the same piece whatever follows, as long as what follows begins alike.
  lemma NextIsLocal(p: string, x: string, y: string)
    requires p != "" && SameEdge(x, y) && Next(p + x).Some? && Next(p + x).value.length <= |p|
    ensures Next(p + y) == Next(p + x)
  {
    hide LineLen, BlockLen, TagLen, IndexOf, QuoteLen, NameLen, WordLen, QuotePrefix;
    var a, b := p + x, p + y;
    assert a[0] == b[0] == p[0] && a[1] == b[1];
    assert a[1..] == p[1..] + x && b[1..] == p[1..] + y;
    assert |p| >= 2 ==> a[2..] == p[2..] + x && b[2..] == p[2..] + y;
    PrefixIsLocal(p, x, y);
    if IsSpace(a[0]) {
    } else if "--" <= a {
      LineIsLocal(p[2..], x, y);
    } else if "/*" <= a {
      BlockIsLocal(p[2..], x, y, 1);
    } else if a[0] == '$' && TagLen(a[1..]).Some? {
      DollarIsLocal(p, x, y);
    } else {
      if a[0] == '$' { TagIsLocal(p[1..], x, y); }
      if QuotePrefix(a).Some? {
        var q := QuotePrefix(a).value + 1;
        assert a[q..] == p[q..] + x && b[q..] == p[q..] + y;
        QuoteIsLocal(p[q..], x, y, AllowsEscapes(a[0]));
      } else if a[0] == '"' {
        NameIsLocal(p[1..], x, y, true);
      } else if IsLetter(a[0]) {
        WordIsLocal(p, x, y);
      }
    }
  }

  lemma DollarIsLocal(p: string, x: string, y: string)
    requires p != "" && SameEdge(x, y) && p[0] == '$' && TagLen((p + x)[1..]).Some?
    requires var n := DollarLen(p + x, TagLen((p + x)[1..]).value); n.Some? && n.value <= |p|
    ensures TagLen((p + y)[1..]) == TagLen((p + x)[1..])
    ensures DollarLen(p + y, TagLen((p + y)[1..]).value) == DollarLen(p + x, TagLen((p + x)[1..]).value)
  {
    hide TagLen, IndexOf;
    var a, b := p + x, p + y;
    assert a[1..] == p[1..] + x && b[1..] == p[1..] + y;
    var t := TagLen(a[1..]).value + 1;
    TagIsLocal(p[1..], x, y);
    assert a[..t] == p[..t] && b[..t] == p[..t];
    assert a[t..] == p[t..] + x && b[t..] == p[t..] + y;
    IndexIsLocal(p[t..], x, y, p[..t]);
  }

  // Scanning `s` from its front arrives at index n between two pieces.
  predicate Reaches(s: string, n: nat)
    decreases n
  {
    n == 0 ||
    (s != "" && Next(s).Some? && Next(s).value.length <= n &&
     Reaches(s[Next(s).value.length..], n - Next(s).value.length))
  }

  // What shows of the first n characters.
  function MaskedTo(s: string, n: nat): string
    requires Reaches(s, n)
    decreases n
  {
    if n == 0 then ""
    else
      var p := Next(s).value;
      Shown(p.kind, s[..p.length]) + MaskedTo(s[p.length..], n - p.length)
  }

  lemma MaskedFront(s: string)
    requires s != "" && Next(s).Some?
    ensures var p := Next(s).value;
            Masked(s) == Prepend(Shown(p.kind, s[..p.length]), Masked(s[p.length..]))
  {
    hide Next;
  }

  lemma PrependTwice(a: string, b: string, rest: Option<string>)
    ensures Prepend(a, Prepend(b, rest)) == Prepend(a + b, rest) && Prepend("", rest) == rest
  {
    if rest.Some? {
      assert a + (b + rest.value) == (a + b) + rest.value;
      assert "" + rest.value == rest.value;
    }
  }

  lemma {:induction false} MaskedSplits(s: string, n: nat)
    requires Reaches(s, n) && n <= |s|
    ensures Masked(s) == Prepend(MaskedTo(s, n), Masked(s[n..]))
    decreases n
  {
    hide Next, Masked, Prepend;
    if n == 0 {
      assert s[0..] == s;
      PrependTwice("", "", Masked(s));
    } else {
      var p := Next(s).value;
      var rest := s[p.length..];
      MaskedFront(s);
      MaskedSplits(rest, n - p.length);
      assert rest[n - p.length..] == s[n..];
      PrependTwice(Shown(p.kind, s[..p.length]), MaskedTo(rest, n - p.length), Masked(s[n..]));
    }
  }

  lemma {:induction false} PrefixShowsAlike(p: string, x: string, y: string)
    requires SameEdge(x, y) && Reaches(p + x, |p|)
    ensures Reaches(p + y, |p|) && MaskedTo(p + y, |p|) == MaskedTo(p + x, |p|)
    decreases |p|
  {
    hide Next, SameEdge, Edge, Shown;
    if p == "" {
    } else {
      var n := Next(p + x).value.length;
      NextIsLocal(p, x, y);
      assert (p + x)[n..] == p[n..] + x && (p + y)[n..] == p[n..] + y;
      assert (p + x)[..n] == p[..n] == (p + y)[..n];
      PrefixShowsAlike(p[n..], x, y);
    }
  }

  // What is visible of an accepted input is its masked text, whatever its statements are.
  lemma {:induction false} ScanIsMasked(rules: Rules, st: State, s: string)
    requires Scan(rules, st, s).Some?
    ensures Masked(s) == Some(Scan(rules, st, s).value.visible)
    decreases |s|
  {
    hide Next, Advance, Body, Complete, Shown;
    if s == "" {
    } else {
      var p := Next(s).value;
      var next := Advance(rules, st, p.kind, s[..p.length], Body(s, p.kind)).value;
      ScanIsMasked(rules, next, s[p.length..]);
    }
  }

  // Replacing one hidden piece by another that begins with the same character changes nothing of the masked text.
  lemma HiddenTextIsMasked(kind: Kind, before: string, region: string, other: string, after: string)
    requires Reaches(before + (region + after), |before|) && region != "" && other != "" && region[0] == other[0] &&
             Hidden(kind)
    requires Next(region + after) == Some(Piece(kind, |region|)) && Next(other + after) == Some(Piece(kind, |other|))
    ensures Masked(before + (region + after)) == Masked(before + (other + after))
  {
    hide Next, MaskedTo, Edge;
    var x, y := region + after, other + after;
    HiddenPieceIsEdge(x);
    HiddenPieceIsEdge(y);
    PrefixShowsAlike(before, x, y);
    MaskedSplits(before + x, |before|);
    MaskedSplits(before + y, |before|);
    assert (before + x)[|before|..] == x && (before + y)[|before|..] == y;
    assert x[|region|..] == after && y[|other|..] == after;
  }

  // So if scanning accepts both, what is visible of both is the same.
  lemma HiddenTextDoesNotShow(rules: Rules, kind: Kind, before: string, region: string, other: string, after: string)
    requires Reaches(before + (region + after), |before|) && region != "" && other != "" && region[0] == other[0] &&
             Hidden(kind)
    requires Next(region + after) == Some(Piece(kind, |region|)) && Next(other + after) == Some(Piece(kind, |other|))
    requires Scan(rules, START, before + (region + after)).Some? && Scan(rules, START, before + (other + after)).Some?
    ensures Scan(rules, START, before + (other + after)).value.visible ==
            Scan(rules, START, before + (region + after)).value.visible
  {
    hide Scan, Masked, Next, Reaches;
    HiddenTextIsMasked(kind, before, region, other, after);
    ScanIsMasked(rules, START, before + (region + after));
    ScanIsMasked(rules, START, before + (other + after));
  }

  // ---------- When hidden text decides ----------

  // The statement that `t` begins and `s` goes on with, up to its end.
  function Ending(t: Statement, s: string): Statement
    decreases |s|
  {
    if s == "" || Next(s).None? then t
    else
      var p := Next(s).value;
      var next := Extend(t, p.kind, s[..p.length]);
      if p.kind.Mark? && s[..p.length] == ";" then next else Ending(next, s[p.length..])
  }

  // A trigger is defined by the very text that is pinned.
  predicate Admissible(rules: Rules, t: Statement) {
    DefinesTrigger(t.words) ==> Pinned(rules, t)
  }

  predicate SameUpToBodies(a: State, b: State) {
    b == a.(routines := b.routines)
  }

  // And up to the raw text of the statement.
  predicate Alike(a: State, b: State) {
    a.statement.words == b.statement.words && (a.statement.raw.Some? <==> b.statement.raw.Some?) &&
    SameUpToBodies(a.(statement := b.statement), b)
  }

  predicate EndsStatement(kind: Kind, text: string) {
    kind.Mark? && text == ";"
  }

  lemma AlikeAdvance(rules: Rules, a: State, b: State, kind: Kind, text: string, body: string, bodyB: string)
    requires Alike(a, b) && !EndsStatement(kind, text)
    ensures var nextA, nextB := Advance(rules, a, kind, text, body), Advance(rules, b, kind, text, bodyB);
            (nextA.Some? <==> nextB.Some?) &&
            (nextA.Some? ==>
               Alike(nextA.value, nextB.value) && nextB.value.statement == Extend(b.statement, kind, text) &&
                             (SameUpToBodies(a, b) ==> SameUpToBodies(nextA.value, nextB.value)))
  {
    hide Complete, DefinesRoutine, Upper, Shown;
  }

  lemma AlikeEnds(rules: Rules, a: State, b: State, text: string, body: string, bodyB: string)
    requires Alike(a, b) && EndsStatement(Mark, text) && Advance(rules, a, Mark, text, body).Some?
    ensures Advance(rules, b, Mark, text, bodyB).Some? <==> Admissible(rules, Extend(b.statement, Mark, text))
    ensures Advance(rules, b, Mark, text, bodyB).Some? ==>
              SameUpToBodies(Advance(rules, a, Mark, text, body).value, Advance(rules, b, Mark, text, bodyB).value)
  {
    hide DefinesRoutine, DefinesTrigger, Shown, WithDefinition;
  }

  lemma EqualEnds(rules: Rules, a: State, b: State, text: string, body: string, bodyB: string)
    requires SameUpToBodies(a, b) && EndsStatement(Mark, text)
    ensures var nextA, nextB := Advance(rules, a, Mark, text, body), Advance(rules, b, Mark, text, bodyB);
            (nextA.Some? <==> nextB.Some?) && (nextA.Some? ==> SameUpToBodies(nextA.value, nextB.value))
  {
    hide DefinesRoutine, DefinesTrigger, Shown, WithDefinition, Pinned;
  }

  // What was recorded of earlier routines decides nothing.
  lemma {:induction false} BodiesDecideNothing(rules: Rules, a: State, b: State, s: string)
    requires SameUpToBodies(a, b)
    ensures Scan(rules, a, s).Some? <==> Scan(rules, b, s).Some?
    decreases |s|
  {
    hide Next, Advance, Body, Shown, WithDefinition, DefinesRoutine, DefinesTrigger, Pinned;
    if s == "" {
    } else if Next(s).Some? {
      var p := Next(s).value;
      var text, body := s[..p.length], Body(s, p.kind);
      if EndsStatement(p.kind, text) { EqualEnds(rules, a, b, text, body, body); }
      else { AlikeAdvance(rules, a, b, p.kind, text, body, body); }
      var nextA, nextB := Advance(rules, a, p.kind, text, body), Advance(rules, b, p.kind, text, body);
      if nextA.Some? { BodiesDecideNothing(rules, nextA.value, nextB.value, s[p.length..]); }
    }
  }

  // Once a statement's raw text alone differs, only its end can tell.
  lemma {:induction false} RawTextDecidesAtTheEnd(rules: Rules, a: State, b: State, s: string)
    requires Alike(a, b) && Scan(rules, a, s).Some?
    ensures Scan(rules, b, s).Some? <==> Admissible(rules, Ending(b.statement, s))
    decreases |s|
  {
    hide Next, Advance, Body, Shown, Admissible, Extend, Complete;
    if s == "" {
      AlikeComplete(rules, a, b);
    } else {
      var p := Next(s).value;
      var text, body := s[..p.length], Body(s, p.kind);
      var nextA, nextB := Advance(rules, a, p.kind, text, body), Advance(rules, b, p.kind, text, body);
      if EndsStatement(p.kind, text) {
        AlikeEnds(rules, a, b, text, body, body);
        if nextB.Some? { BodiesDecideNothing(rules, nextA.value, nextB.value, s[p.length..]); }
      } else {
        AlikeAdvance(rules, a, b, p.kind, text, body, body);
        RawTextDecidesAtTheEnd(rules, nextA.value, nextB.value, s[p.length..]);
      }
    }
  }

  lemma AlikeComplete(rules: Rules, a: State, b: State)
    requires Alike(a, b) && Complete(rules, a).Some?
    ensures Complete(rules, b).Some? <==> Admissible(rules, b.statement)
  {
    hide DefinesRoutine, DefinesTrigger, WithDefinition;
  }

  // The state after the first n characters; None when they are refused.
  function StateTo(rules: Rules, st: State, s: string, n: nat): Option<State>
    requires Reaches(s, n)
    decreases n
  {
    if n == 0 then Some(st)
    else
      var p := Next(s).value;
      var next := Advance(rules, st, p.kind, s[..p.length], Body(s, p.kind));
      if next.None? then None else StateTo(rules, next.value, s[p.length..], n - p.length)
  }

  lemma {:induction false} ScanSplits(rules: Rules, st: State, s: string, n: nat)
    requires Reaches(s, n) && n <= |s|
    ensures var middle := StateTo(rules, st, s, n);
            Scan(rules, st, s).Some? <==> middle.Some? && Scan(rules, middle.value, s[n..]).Some?
    decreases n
  {
    hide Next, Advance, Body, Shown;
    if n == 0 {
      assert s[0..] == s;
    } else {
      var p := Next(s).value;
      var next := Advance(rules, st, p.kind, s[..p.length], Body(s, p.kind));
      ScanFront(rules, st, s);
      if next.Some? {
        ScanSplits(rules, next.value, s[p.length..], n - p.length);
        assert s[p.length..][n - p.length..] == s[n..];
      }
    }
  }

  lemma {:induction false} PrefixLeadsAlike(rules: Rules, a: State, b: State, p: string, x: string, y: string)
    requires SameEdge(x, y) && Reaches(p + x, |p|) && SameUpToBodies(a, b)
    ensures Reaches(p + y, |p|)
    ensures var one, other := StateTo(rules, a, p + x, |p|), StateTo(rules, b, p + y, |p|);
            (one.Some? <==> other.Some?) && (one.Some? ==> SameUpToBodies(one.value, other.value))
    decreases |p|
  {
    hide Next, Advance, Body, SameEdge, Edge;
    if p == "" {
    } else {
      var piece := Next(p + x).value;
      var n, kind := piece.length, piece.kind;
      NextIsLocal(p, x, y);
      assert (p + x)[n..] == p[n..] + x && (p + y)[n..] == p[n..] + y;
      assert (p + x)[..n] == p[..n] == (p + y)[..n];
      var bodyX, bodyY := Body(p + x, kind), Body(p + y, kind);
      if EndsStatement(kind, p[..n]) { EqualEnds(rules, a, b, p[..n], bodyX, bodyY); }
      else { AlikeAdvance(rules, a, b, kind, p[..n], bodyX, bodyY); }
      var nextX, nextY := Advance(rules, a, kind, p[..n], bodyX), Advance(rules, b, kind, p[..n], bodyY);
      PrefixShowsAlike(p, x, y);
      if nextX.Some? { PrefixLeadsAlike(rules, nextX.value, nextY.value, p[n..], x, y); }
    }
  }

  // The end of the statement in which `other` takes a hidden piece's place, after `st`.
  function EndingWith(st: State, kind: Kind, other: string, after: string): Statement {
    Ending(Extend(st.statement, kind, other), after)
  }

  lemma HiddenAdvance(rules: Rules, a: State, b: State, kind: Kind, region: string, other: string, bodyA: string,
                      bodyB: string)
    requires SameUpToBodies(a, b) && Hidden(kind) && Advance(rules, a, kind, region, bodyA).Some?
    ensures Advance(rules, b, kind, other, bodyB).Some? <==> (AtBody(a) && kind.Literal? ==> '\\' !in other)
    ensures Advance(rules, b, kind, other, bodyB).Some? ==>
              Alike(Advance(rules, a, kind, region, bodyA).value, Advance(rules, b, kind, other, bodyB).value) &&
              Advance(rules, b, kind, other, bodyB).value.statement == Extend(a.statement, kind, other)
  {
    hide DefinesRoutine;
  }

  // Replacing one hidden piece of an accepted input by another of its kind that begins with the same character keeps it
  // accepted exactly when a literal that is the body of a routine holds no backslash, and a trigger is still defined by
  // its pinned text.
  lemma HiddenTextDecidesExactlyWhen(rules: Rules, kind: Kind, before: string, region: string, other: string,
                                     after: string)
    requires Reaches(before + (region + after), |before|) && region != "" && other != "" && region[0] == other[0] &&
             Hidden(kind)
    requires Next(region + after) == Some(Piece(kind, |region|)) && Next(other + after) == Some(Piece(kind, |other|))
    requires Scan(rules, START, before + (region + after)).Some?
    ensures StateTo(rules, START, before + (region + after), |before|).Some?
    ensures var st := StateTo(rules, START, before + (region + after), |before|).value;
            Scan(rules, START, before + (other + after)).Some? <==>
            (AtBody(st) && kind.Literal? ==> '\\' !in other) && Admissible(rules, EndingWith(st, kind, other, after))
  {
    hide Next, Edge, Advance, Body, StateTo, Admissible, Scan, Reaches, Extend, AtBody;
    var x, y := region + after, other + after;
    HiddenPieceIsEdge(x);
    HiddenPieceIsEdge(y);
    PrefixLeadsAlike(rules, START, START, before, x, y);
    ScanSplits(rules, START, before + x, |before|);
    ScanSplits(rules, START, before + y, |before|);
    assert (before + x)[|before|..] == x && (before + y)[|before|..] == y;
    assert x[|region|..] == after && y[|other|..] == after && x[..|region|] == region && y[..|other|] == other;
    var a, b := StateTo(rules, START, before + x, |before|).value, StateTo(rules, START, before + y, |before|).value;
    ScanFront(rules, a, x);
    ScanFront(rules, b, y);
    HiddenAdvance(rules, a, b, kind, region, other, Body(x, kind), Body(y, kind));
    var nextB := Advance(rules, b, kind, other, Body(y, kind));
    if nextB.Some? {
      RawTextDecidesAtTheEnd(rules, Advance(rules, a, kind, region, Body(x, kind)).value, nextB.value, after);
    }
  }

  lemma {:induction false} EndingWords(t: Statement, u: Statement, s: string)
    requires t.words == u.words
    ensures Ending(t, s).words == Ending(u, s).words
    decreases |s|
  {
    hide Next, Upper;
    if s == "" || Next(s).None? {
    } else {
      var p := Next(s).value;
      EndingWords(Extend(t, p.kind, s[..p.length]), Extend(u, p.kind, s[..p.length]), s[p.length..]);
    }
  }

  // Outside the bodies of routines and the definitions of triggers hidden text decides nothing at all.
  lemma HiddenTextDecidesNothingElsewhere(rules: Rules, kind: Kind, before: string, region: string, other: string,
                                          after: string)
    requires Reaches(before + (region + after), |before|) && region != "" && other != "" && region[0] == other[0] &&
             Hidden(kind)
    requires Next(region + after) == Some(Piece(kind, |region|)) && Next(other + after) == Some(Piece(kind, |other|))
    requires var st := StateTo(rules, START, before + (region + after), |before|);
             st.Some? ==> !AtBody(st.value) && !DefinesTrigger(EndingWith(st.value, kind, region, after).words)
    ensures Scan(rules, START, before + (other + after)).Some? <==> Scan(rules, START, before + (region + after)).Some?
  {
    hide Next, Edge, Scan, StateTo, Reaches, Ending, AtBody;
    var x, y := region + after, other + after;
    HiddenPieceIsEdge(x);
    HiddenPieceIsEdge(y);
    PrefixLeadsAlike(rules, START, START, before, x, y);
    ScanSplits(rules, START, before + x, |before|);
    ScanSplits(rules, START, before + y, |before|);
    var one, another := StateTo(rules, START, before + x, |before|), StateTo(rules, START, before + y, |before|);
    if one.Some? {
      EndingWords(Extend(one.value.statement, kind, region), Extend(one.value.statement, kind, other), after);
      AtBodyAlike(one.value, another.value);
      if Scan(rules, START, before + x).Some? {
        HiddenTextDecidesExactlyWhen(rules, kind, before, region, other, after);
      }
      if Scan(rules, START, before + y).Some? {
        HiddenTextDecidesExactlyWhen(rules, kind, before, other, region, after);
      }
    }
  }

  lemma AtBodyAlike(a: State, b: State)
    requires SameUpToBodies(a, b)
    ensures AtBody(a) <==> AtBody(b)
  {
  }

  // ---------- Definitions without hidden text ----------

  // Nothing is hidden in `text`: it falls into pieces that all show.
  predicate ShowsThroughout(text: string)
    decreases |text|
  {
    text == "" ||
    (Next(text).Some? && !Hidden(Next(text).value.kind) && ShowsThroughout(text[Next(text).value.length..]))
  }

  // No trigger is pinned by a text that hides anything.
  ghost predicate PinsShow(rules: Rules) {
    forall name, text :: rules.pinnedTrigger(name, text) ==> ShowsThroughout(text)
  }

  // Nothing in `text` can begin a comment, a literal, a quoted identifier or a dollar-quoted text.
  predicate Plain(text: string) {
    forall i :: 0 <= i < |text| ==>
      text[i] != '\'' && text[i] != '"' && text[i] != '$' && !TwoAt(text, i, '-', '-') && !TwoAt(text, i, '/', '*')
  }

  lemma PlainFront(text: string)
    requires text != "" && Plain(text)
    ensures Next(text).Some? && !Hidden(Next(text).value.kind) && Plain(text[Next(text).value.length..])
  {
    hide LineLen, BlockLen, TagLen, QuoteLen, NameLen, WordLen;
    assert text[0] != '\'' && text[0] != '"' && text[0] != '$' && !TwoAt(text, 0, '-', '-') &&
           !TwoAt(text, 0, '/', '*');
    assert |text| >= 2 ==> text[1] != '\'';
    assert |text| >= 3 ==> text[2] != '\'';
    var n := Next(text).value.length;
    forall i | 0 <= i < |text[n..]|
      ensures text[n..][i] != '\'' && text[n..][i] != '"' && text[n..][i] != '$'
      ensures !TwoAt(text[n..], i, '-', '-') && !TwoAt(text[n..], i, '/', '*')
    {
      assert text[n..][i] == text[n + i];
      assert !TwoAt(text, n + i, '-', '-') && !TwoAt(text, n + i, '/', '*');
    }
  }

  // Such a text hides nothing. The triggers that the source pins are made of words, white space, full stops, brackets
  // and a semicolon.
  lemma {:induction false} PlainTextShows(text: string)
    requires Plain(text)
    ensures ShowsThroughout(text)
    decreases |text|
  {
    hide Next, Plain;
    if text == "" {
    } else {
      PlainFront(text);
      PlainTextShows(text[Next(text).value.length..]);
    }
  }

  lemma {:induction false} ShowsWhereReached(text: string, n: nat)
    requires ShowsThroughout(text) && Reaches(text, n) && n < |text|
    ensures Next(text[n..]).Some? && !Hidden(Next(text[n..]).value.kind)
    decreases n
  {
    hide Next;
    if n == 0 {
      assert text[0..] == text;
    } else {
      var k := Next(text).value.length;
      ShowsWhereReached(text[k..], n - k);
      assert text[k..][n - k..] == text[n..];
    }
  }

  // The raw text of the statement ends where scanning stands, and its pieces are those of the input.
  predicate RawEndsAt(s: string, n: nat, raw: string) {
    |raw| <= n <= |s| && raw == s[n - |raw|..n] && Reaches(s[n - |raw|..], |raw|)
  }

  lemma {:induction false} RawIsBehind(rules: Rules, st: State, s: string, n: nat)
    requires Reaches(s, n) && n <= |s| && StateTo(rules, st, s, n).Some?
    requires StateTo(rules, st, s, n).value.statement.raw.Some?
    requires st.statement.raw.Some? ==> st.statement.words != []
    ensures var t := StateTo(rules, st, s, n).value.statement;
            t.words != [] &&
            (RawEndsAt(s, n, t.raw.value) || (st.statement.raw.Some? && t.raw.value == st.statement.raw.value + s[..n]))
    decreases n
  {
    hide Next, Advance, Body, RawEndsAt;
    if n == 0 {
      assert st.statement.raw.value + s[..0] == st.statement.raw.value;
    } else {
      var p := Next(s).value;
      var k, text := p.length, s[..p.length];
      var next := Advance(rules, st, p.kind, text, Body(s, p.kind)).value;
      AdvanceExtends(rules, st, p.kind, text, Body(s, p.kind));
      RawIsBehind(rules, next, s[k..], n - k);
      var raw := StateTo(rules, st, s, n).value.statement.raw.value;
      if RawEndsAt(s[k..], n - k, raw) {
        RawEndsLater(s, k, n, raw);
      } else {
        assert text + s[k..][..n - k] == s[..n];
        if st.statement.raw.Some? && next.statement.raw == Some(st.statement.raw.value + text) {
          assert st.statement.raw.value + text + s[k..][..n - k] == st.statement.raw.value + s[..n];
        } else {
          assert raw == s[..n];
          RawEndsHere(s, n);
        }
      }
    }
  }

  lemma RawEndsLater(s: string, k: nat, n: nat, raw: string)
    requires k <= n <= |s| && RawEndsAt(s[k..], n - k, raw)
    ensures RawEndsAt(s, n, raw)
  {
    hide Reaches;
    assert s[k..][n - k - |raw|..n - k] == s[n - |raw|..n] && s[k..][n - k - |raw|..] == s[n - |raw|..];
  }

  lemma RawEndsHere(s: string, n: nat)
    requires n <= |s| && Reaches(s, n)
    ensures RawEndsAt(s, n, s[..n])
  {
    hide Reaches;
    assert s[0..] == s;
  }

  // How a piece changes the statement that is being read.
  lemma AdvanceExtends(rules: Rules, st: State, kind: Kind, text: string, body: string)
    requires Advance(rules, st, kind, text, body).Some?
    ensures var t, next := st.statement, Advance(rules, st, kind, text, body).value.statement;
            if EndsStatement(kind, text) then next == Statement([], None)
            else
              next == Extend(t, kind, text) && (next.raw.Some? && (t.raw.Some? ==> t.words != []) ==>
                                                  next.words != []) &&
              (next.raw.Some? && (t.raw.Some? ==> t.words != []) ==>
                 next.raw == Some(text) || (t.raw.Some? && next.raw == Some(t.raw.value + text))) &&
              (t.raw.Some? && t.words != [] ==> next.raw == Some(t.raw.value + text) && next.words != [])
  {
    hide DefinesRoutine, DefinesTrigger, Shown, Upper, WithDefinition;
  }

  // The raw text with which an accepted statement ends: up to a semicolon that is a piece of its own, or to the end.
  lemma {:induction false} EndingRaw(rules: Rules, st: State, s: string) returns (m: nat)
    requires st.statement.raw.Some? && st.statement.words != [] && Scan(rules, st, s).Some?
    ensures m <= |s| && Ending(st.statement, s).raw == Some(st.statement.raw.value + s[..m])
    ensures m == |s| || (m > 0 && s[m - 1] == ';')
    decreases |s|
  {
    hide Next, Advance, Body, Extend, Scan, Ending, EndsStatement;
    var t := st.statement;
    if s == "" {
      m := 0;
      EndingFront(t, s);
      assert t.raw.value + s[..0] == t.raw.value;
    } else {
      ScanNeedsPiece(rules, st, s);
      var p := Next(s).value;
      var k, text := p.length, s[..p.length];
      ScanFront(rules, st, s);
      EndingFront(t, s);
      AdvanceExtends(rules, st, p.kind, text, Body(s, p.kind));
      if EndsStatement(p.kind, text) {
        m := k;
        MarkGrows(t, text, p.kind);
        assert s[k - 1] == ';';
      } else {
        var next := Advance(rules, st, p.kind, text, Body(s, p.kind)).value;
        var more := EndingRaw(rules, next, s[k..]);
        m := k + more;
        SlicesJoin(t.raw.value, s, k, more);
        assert s[m - 1] == if more > 0 then s[k..][more - 1] else s[k - 1];
      }
    }
  }

  lemma MarkGrows(t: Statement, text: string, kind: Kind)
    requires EndsStatement(kind, text)
    ensures text == ";" && Extend(t, kind, text) == Statement(t.words, Grow(t.raw, text))
  {
  }

  lemma SlicesJoin(raw: string, s: string, k: nat, more: nat)
    requires k + more <= |s|
    ensures raw + s[..k] + s[k..][..more] == raw + s[..k + more]
  {
    assert s[..k] + s[k..][..more] == s[..k + more];
  }

  lemma EndingFront(t: Statement, s: string)
    ensures Ending(t, s) ==
            if s == "" || Next(s).None? then t
            else
              var p := Next(s).value;
              var next := Extend(t, p.kind, s[..p.length]);
              if EndsStatement(p.kind, s[..p.length]) then next else Ending(next, s[p.length..])
  {
    hide Next, Extend;
  }

  lemma ScanNeedsPiece(rules: Rules, st: State, s: string)
    requires s != "" && Scan(rules, st, s).Some?
    ensures Next(s).Some?
  {
    hide Next, Advance, Body;
  }

  // A hidden piece that stands inside a statement keeps standing there when only that statement is read.
  lemma HiddenPieceStays(kind: Kind, raw: string, region: string, after: string, m: nat)
    requires region != "" && Hidden(kind) && Next(region + after) == Some(Piece(kind, |region|))
    requires Reaches(raw + (region + after), |raw|) && m <= |after| && (m == |after| || (m > 0 && after[m - 1] == ';'))
    ensures var text := raw + (region + after[..m]);
            Reaches(text, |raw|) && |raw| < |text| && Next(text[|raw|..]) == Some(Piece(kind, |region|))
  {
    hide Next, Reaches;
    var text := raw + (region + after[..m]);
    assert text[|raw|..] == region + after[..m];
    if m == |after| {
      assert after[..m] == after;
    } else {
      var p, x, y := region + after[..m - 1], ";" + after[m..], ";";
      assert after == after[..m - 1] + x && after[..m] == after[..m - 1] + y;
      assert region + after == p + x && region + after[..m] == p + y;
      SemicolonsAreAlike(after[m..]);
      NextIsLocal(p, x, y);
      HiddenPieceIsEdge(p + x);
      HiddenPieceIsEdge(p + y);
      PrefixShowsAlike(raw, p + x, p + y);
    }
  }

  lemma SemicolonsAreAlike(rest: string)
    ensures SameEdge(";" + rest, ";")
  {
  }

  // Where no pin hides anything, no accepted input hides anything inside the definition of a trigger.
  lemma TriggersHideNothing(rules: Rules, kind: Kind, before: string, region: string, after: string)
    requires PinsShow(rules) && Reaches(before + (region + after), |before|) && region != "" && Hidden(kind)
    requires Next(region + after) == Some(Piece(kind, |region|)) && Scan(rules, START, before + (region + after)).Some?
    ensures StateTo(rules, START, before + (region + after), |before|).Some?
    ensures var st := StateTo(rules, START, before + (region + after), |before|).value;
            st.statement.raw.Some? ==> !DefinesTrigger(EndingWith(st, kind, region, after).words)
  {
    hide Next, Advance, Body, StateTo, Scan, Reaches, ShowsThroughout, Ending, DefinesTrigger, RawEndsAt;
    var s := before + (region + after);
    ScanSplits(rules, START, s, |before|);
    assert s[|before|..] == region + after;
    var st := StateTo(rules, START, s, |before|).value;
    if st.statement.raw.Some? {
      var raw := st.statement.raw.value;
      RawIsBehind(rules, START, s, |before|);
      RawReaches(before, region + after, raw);
      TriggerTextShows(rules, st, kind, raw, region, after);
    }
  }

  lemma RawReaches(before: string, rest: string, raw: string)
    requires RawEndsAt(before + rest, |before|, raw)
    ensures Reaches(raw + rest, |raw|)
  {
    hide Reaches;
    var s := before + rest;
    assert s[|before| - |raw|..] == raw + rest;
  }

  // A trigger's definition that is accepted hides nothing.
  lemma TriggerTextShows(rules: Rules, st: State, kind: Kind, raw: string, region: string, after: string)
    requires PinsShow(rules) && Hidden(kind) && region != "" && Next(region + after) == Some(Piece(kind, |region|))
    requires st.statement.raw == Some(raw) && st.statement.words != [] && Reaches(raw + (region + after), |raw|)
    requires Scan(rules, st, region + after).Some?
    ensures !DefinesTrigger(EndingWith(st, kind, region, after).words)
  {
    hide Next, Advance, Body, Scan, Reaches, ShowsThroughout, Ending, DefinesTrigger, Extend;
    var x := region + after;
    assert x[..|region|] == region && x[|region|..] == after;
    ScanFront(rules, st, x);
    AdvanceExtends(rules, st, kind, region, Body(x, kind));
    var next := Advance(rules, st, kind, region, Body(x, kind)).value;
    var m := EndingRaw(rules, next, after);
    RawTextDecidesAtTheEnd(rules, next, next, after);
    HiddenPieceStays(kind, raw, region, after, m);
    var text := raw + (region + after[..m]);
    assert raw + region + after[..m] == text;
    if ShowsThroughout(text) { ShowsWhereReached(text, |raw|); }
  }

  // With such pins, as the source has them, replacing one hidden piece of an accepted input by another of its kind that
  // begins with the same character keeps it accepted exactly when a literal that is the body of a routine holds no
  // backslash.
  lemma HiddenTextDecidesInBodies(rules: Rules, kind: Kind, before: string, region: string, other: string,
                                  after: string)
    requires PinsShow(rules)
    requires Reaches(before + (region + after), |before|) && region != "" && other != "" && region[0] == other[0] &&
             Hidden(kind)
    requires Next(region + after) == Some(Piece(kind, |region|)) && Next(other + after) == Some(Piece(kind, |other|))
    requires Scan(rules, START, before + (region + after)).Some?
    ensures StateTo(rules, START, before + (region + after), |before|).Some?
    ensures var st := StateTo(rules, START, before + (region + after), |before|).value;
            Scan(rules, START, before + (other + after)).Some? <==> (AtBody(st) && kind.Literal? ==> '\\' !in other)
  {
    hide Next, StateTo, Scan, Reaches, AtBody, PinsShow, DefinesTrigger, Pinned, Ending;
    HiddenTextDecidesExactlyWhen(rules, kind, before, region, region, after);
    HiddenTextDecidesExactlyWhen(rules, kind, before, region, other, after);
    TriggersHideNothing(rules, kind, before, region, after);
    var st := StateTo(rules, START, before + (region + after), |before|).value;
    EndingWords(Extend(st.statement, kind, region), Extend(st.statement, kind, other), after);
  }

  // ---------- Words in a row ----------

  lemma {:induction false} WordReaches(s: string, n: nat)
    requires n <= |s| && (forall i :: 0 <= i < n ==> IsWordChar(s[i])) && (n < |s| ==> !IsWordChar(s[n]))
    ensures WordLen(s) == n
    decreases n
  {
    if n == 0 {
    } else {
      WordReaches(s[1..], n - 1);
    }
  }

  lemma WordFront(text: string, rest: string)
    requires |text| >= 1 && IsLetter(text[0]) && (forall i :: 0 <= i < |text| ==> IsWordChar(text[i]))
    requires rest != "" && !IsWordChar(rest[0]) && QuotePrefix(text + rest).None?
    ensures Next(text + rest) == Some(Piece(Word, |text|))
  {
    hide WordLen, QuotePrefix;
    WordReaches(text + rest, |text|);
  }

  lemma WordIsNoPrefix(text: string, rest: string)
    requires IsWord(text)
    ensures QuotePrefix(text + (" " + rest)).None?
  {
    var s := text + (" " + rest);
    assert s[0] == text[0];
    if |text| >= 2 { assert s[1] == text[1]; } else { assert s[1] == ' '; }
  }

  // Scanning the piece at the front.
  lemma PieceScans(rules: Rules, st: State, kind: Kind, text: string, rest: string)
    requires text != "" && Next(text + rest) == Some(Piece(kind, |text|))
    ensures var next := Advance(rules, st, kind, text, Body(text + rest, kind));
            Scan(rules, st, text + rest) ==
            if next.None? then None else ShownBefore(Shown(kind, text), Scan(rules, next.value, rest))
  {
    hide Next, Advance, Body, Scan, Shown, ShownBefore;
    ScanFront(rules, st, text + rest);
    assert (text + rest)[|text|..] == rest && (text + rest)[..|text|] == text;
  }

  // One word and the space after it.
  lemma WordScans(rules: Rules, st: State, text: string, rest: string)
    requires IsWord(text)
    ensures var told := Extend(st.statement, Word, text);
            var next := st.(statement := Statement(told.words, Grow(told.raw, " ")), shown := st.shown + text + " ",
                            previous := Upper(text));
            Scan(rules, st, text + (" " + rest)) == ShownBefore(text + " ", Scan(rules, next, rest))
  {
    hide Next, Scan, Upper, ShownBefore, QuotePrefix;
    WordIsNoPrefix(text, rest);
    WordFront(text, " " + rest);
    PieceScans(rules, st, Word, text, " " + rest);
    var middle := st.(statement := Extend(st.statement, Word, text), shown := st.shown + text, previous := Upper(text));
    SpaceFront(rest);
    PieceScans(rules, middle, Space, " ", rest);
    var told := middle.statement;
    var next := middle.(statement := Statement(told.words, Grow(told.raw, " ")), shown := middle.shown + " ");
    ShownTwice(text, " ", Scan(rules, next, rest));
  }

  lemma SpaceFront(rest: string)
    ensures Next(" " + rest) == Some(Piece(Space, 1))
  {
  }

  // Words in a row, each followed by a space.
  function Sentence(words: seq<string>): string {
    if words == [] then "" else words[0] + (" " + Sentence(words[1..]))
  }

  predicate IsWord(text: string) {
    text != "" && IsLetter(text[0]) && forall i :: 0 <= i < |text| ==> IsWordChar(text[i])
  }

  predicate AreWords(words: seq<string>) {
    forall i :: 0 <= i < |words| ==> IsWord(words[i])
  }

  function Uppers(words: seq<string>): (uppers: seq<string>)
    ensures |uppers| == |words|
  {
    seq(|words|, i requires 0 <= i < |words| => Upper(words[i]))
  }

  function FirstWords(words: seq<string>): seq<string> {
    if |words| <= MAX_WORDS then words else words[..MAX_WORDS]
  }

  // The statement that `t` becomes by these words.
  function Told(t: Statement, words: seq<string>): Statement
    decreases |words|
  {
    if words == [] then t
    else
      var next := Extend(t, Word, words[0]);
      Told(Statement(next.words, Grow(next.raw, " ")), words[1..])
  }

  lemma {:induction false} ToldIs(t: Statement, words: seq<string>)
    requires words != [] && |t.words| <= MAX_WORDS && (t.words == [] <==> t.raw.None?)
    ensures Told(t, words) ==
            Statement(FirstWords(t.words + Uppers(words)),
                      Some((if t.raw.Some? then t.raw.value else "") + Sentence(words)))
    decreases |words|
  {
    hide Upper, Extend;
    var before := if t.raw.Some? then t.raw.value else "";
    WordTells(t, words[0]);
    var next := Extend(t, Word, words[0]);
    var grown := Statement(next.words, Grow(next.raw, " "));
    assert Uppers(words) == [Upper(words[0])] + Uppers(words[1..]);
    assert t.words + Uppers(words) == t.words + [Upper(words[0])] + Uppers(words[1..]);
    if |words| == 1 {
      assert words[1..] == [] && Sentence(words) == words[0] + (" " + "");
      assert Told(grown, words[1..]) == grown && before + words[0] + " " == before + Sentence(words);
      assert Uppers(words[1..]) == [] && t.words + Uppers(words) == t.words + [Upper(words[0])];
    } else {
      ToldIs(grown, words[1..]);
      FirstOfFirst(t.words + [Upper(words[0])], Uppers(words[1..]));
      assert before + words[0] + " " + Sentence(words[1..]) == before + Sentence(words);
    }
  }

  lemma WordTells(t: Statement, text: string)
    requires |t.words| <= MAX_WORDS && (t.words == [] <==> t.raw.None?)
    ensures var next := Extend(t, Word, text);
            next.words == FirstWords(t.words + [Upper(text)]) &&
            Grow(next.raw, " ") == Some((if t.raw.Some? then t.raw.value else "") + text + " ")
  {
    hide Upper;
    assert |t.words| == MAX_WORDS ==> (t.words + [Upper(text)])[..MAX_WORDS] == t.words;
    assert "" + text == text;
  }

  lemma FirstOfFirst(front: seq<string>, back: seq<string>)
    ensures FirstWords(FirstWords(front) + back) == FirstWords(front + back)
  {
  }

  function LastWord(previous: string, words: seq<string>): string {
    if words == [] then previous else Upper(words[|words| - 1])
  }

  // The words of a statement show as they are, and lead to the state that they tell.
  lemma {:induction false} SentenceScans(rules: Rules, st: State, words: seq<string>, rest: string)
    requires AreWords(words)
    ensures var next := st.(statement := Told(st.statement, words), shown := st.shown + Sentence(words),
                            previous := LastWord(st.previous, words));
            Scan(rules, st, Sentence(words) + rest) == ShownBefore(Sentence(words), Scan(rules, next, rest))
    decreases |words|
  {
    hide Upper, Scan, ShownBefore, Extend;
    if words == [] {
      assert Sentence(words) + rest == rest && st.shown + Sentence(words) == st.shown;
      ShownTwice("", "", Scan(rules, st, rest));
    } else {
      var text, tail := words[0], words[1..];
      assert IsWord(text);
      var told := Extend(st.statement, Word, text);
      var next := st.(statement := Statement(told.words, Grow(told.raw, " ")), shown := st.shown + text + " ",
                      previous := Upper(text));
      WordScans(rules, st, text, Sentence(tail) + rest);
      SentenceScans(rules, next, tail, rest);
      assert Sentence(words) + rest == text + (" " + (Sentence(tail) + rest));
      assert st.shown + text + " " + Sentence(tail) == st.shown + Sentence(words);
      assert LastWord(Upper(text), tail) == LastWord(st.previous, words);
      var last := next.(statement := Told(next.statement, tail), shown := next.shown + Sentence(tail),
                        previous := LastWord(next.previous, tail));
      ShownTwice(text + " ", Sentence(tail), Scan(rules, last, rest));
      assert text + " " + Sentence(tail) == Sentence(words);
    }
  }

  function StateAfter(words: seq<string>): State requires words != [] {
    State(Statement(FirstWords(Uppers(words)), Some(Sentence(words))), Sentence(words), Upper(words[|words| - 1]),
          false,
          [])
  }

  lemma StatementScans(rules: Rules, words: seq<string>, rest: string)
    requires AreWords(words) && words != []
    ensures Scan(rules, START, Sentence(words) + rest) ==
            ShownBefore(Sentence(words), Scan(rules, StateAfter(words), rest))
  {
    hide Upper, Scan, ShownBefore;
    ToldIs(START.statement, words);
    assert [] + Uppers(words) == Uppers(words) && "" + Sentence(words) == Sentence(words);
    SentenceScans(rules, START, words, rest);
  }

  // ---------- Statements made of words ----------

  // CREATE, and FUNCTION or PROCEDURE in one of the four places after it.
  predicate SaysRoutine(words: seq<string>) {
    words != [] && Upper(words[0]) == "CREATE" &&
    exists i :: 1 <= i <= 4 && i < |words| && (Upper(words[i]) == "FUNCTION" || Upper(words[i]) == "PROCEDURE")
  }

  predicate SaysTrigger(words: seq<string>) {
    |words| >= 2 && Upper(words[0]) == "CREATE" && Upper(words[1]) == "TRIGGER"
  }

  lemma WordsSay(words: seq<string>)
    ensures DefinesRoutine(FirstWords(Uppers(words))) <==> SaysRoutine(words)
    ensures DefinesTrigger(FirstWords(Uppers(words))) <==> SaysTrigger(words)
  {
    hide Upper;
    var firsts := FirstWords(Uppers(words));
    assert forall i :: 0 <= i < |firsts| ==> firsts[i] == Upper(words[i]);
    if SaysRoutine(words) {
      var i :| 1 <= i <= 4 && i < |words| && (Upper(words[i]) == "FUNCTION" || Upper(words[i]) == "PROCEDURE");
      assert firsts[i] == Upper(words[i]);
    }
  }

  // A statement of words alone is accepted exactly when it defines no routine, whose body it lacks, and no trigger but
  // one that is pinned by just this text.
  lemma StatementOfWords(rules: Rules, words: seq<string>)
    requires AreWords(words) && words != []
    ensures Scan(rules, START, Sentence(words)) ==
            if SaysRoutine(words) ||
               (SaysTrigger(words) && !(|words| > 2 && rules.pinnedTrigger(Upper(words[2]), Sentence(words)))) then None
            else Some(Scanned(Sentence(words), []))
  {
    hide Upper, Scan, SaysRoutine, SaysTrigger, DefinesRoutine, DefinesTrigger;
    var s := Sentence(words);
    assert s + "" == s;
    StatementScans(rules, words, "");
    WordsSay(words);
    ScanEnd(rules, StateAfter(words));
    assert |words| > 2 ==> FirstWords(Uppers(words))[2] == Upper(words[2]);
  }

  // The delimiter `$$` occurs nowhere in the body, nor where the body meets the closing one.
  predicate HoldsNoDelimiter(body: string) {
    (forall i :: 0 <= i < |body| - 1 ==> !TwoAt(body, i, '$', '$')) && (body != "" ==> body[|body| - 1] != '$')
  }

  lemma DelimiterIsFirstAtItsEnd(body: string)
    requires HoldsNoDelimiter(body)
    ensures IndexOf(body + "$$", "$$") == Some(|body|)
  {
    var s := body + "$$";
    IndexIsFirst(s, "$$");
    assert s[|body|..] == "$$";
    var k := IndexOf(s, "$$").value;
    assert s[k..][0] == '$' && s[k..][1] == '$';
    if k < |body| { assert s[k] == '$' && s[k + 1] == '$' && (k + 1 < |body| ==> TwoAt(body, k, '$', '$')); }
  }

  lemma DollarAlone(body: string)
    requires HoldsNoDelimiter(body)
    ensures var text := "$$" + (body + "$$");
            Next(text) == Some(Piece(Dollar, |text|)) && Body(text, Dollar) == body
  {
    hide IndexOf, LineLen, BlockLen, QuoteLen, NameLen, WordLen, QuotePrefix, HoldsNoDelimiter;
    var text := "$$" + (body + "$$");
    DelimiterIsFirstAtItsEnd(body);
    assert text[1..][0] == '$';
    assert TagLen(text[1..]) == Some(1);
    assert text[..2] == "$$" && text[2..] == body + "$$" && text[2..][..|body|] == body;
  }

  lemma BodyEndsDefinition(rules: Rules, st: State, text: string, body: string)
    requires !st.pending && st.routines == [] && st.statement.raw.Some? && st.previous == "AS"
    requires !DefinesTrigger(st.statement.words)
    ensures var next, name := Advance(rules, st, Dollar, text, body), rules.routineName(st.shown);
            if !DefinesRoutine(st.statement.words) then
              next.Some? && Complete(rules, next.value).Some? && Complete(rules, next.value).value.routines == []
            else if name.None? then next.None?
            else
              next.Some? && Complete(rules, next.value).Some? &&
              Complete(rules, next.value).value.routines ==
              [Routine(name.value, body, Some(st.statement.raw.value + text))]
  {
    hide DefinesRoutine, DefinesTrigger;
  }

  // A dollar-quoted text after AS is the body of a routine exactly when the statement defines one, as CREATE OR REPLACE
  // FUNCTION does. The definition is then accepted exactly when its name can be read, and holds that body and the whole
  // text.
  lemma DefinitionWithBody(rules: Rules, words: seq<string>, body: string)
    requires AreWords(words) && words != [] && Upper(words[|words| - 1]) == "AS" && !SaysTrigger(words)
    requires HoldsNoDelimiter(body)
    ensures var definition := Sentence(words) + ("$$" + (body + "$$"));
            var name := rules.routineName(Sentence(words));
            Scan(rules, START, definition) ==
            if !SaysRoutine(words) then Some(Scanned(Sentence(words) + " ", []))
            else if name.None? then None
            else Some(Scanned(Sentence(words) + " ", [Routine(name.value, body, Some(definition))]))
  {
    hide Upper, Scan, Next, Body, SaysRoutine, SaysTrigger, DefinesRoutine, DefinesTrigger, HoldsNoDelimiter, Advance,
         Complete, Sentence, FirstWords, Uppers;
    var text := "$$" + (body + "$$");
    var st := StateAfter(words);
    StatementScans(rules, words, text);
    WordsSay(words);
    DollarAlone(body);
    assert text + "" == text;
    PieceScans(rules, st, Dollar, text, "");
    BodyEndsDefinition(rules, st, text, body);
    var next := Advance(rules, st, Dollar, text, body);
    if next.Some? { ScanEnd(rules, next.value); }
    assert Shown(Dollar, text) == " " && " " + "" == " ";
  }

  // The words with which a routine is defined that may replace an earlier one, as the source's own migrations do.
  function ReplaceRoutine(kind: string): seq<string> {
    ["CREATE", "OR", "REPLACE", kind, "f", "AS"]
  }

  lemma KnownWords()
    ensures IsWord("CREATE") && IsWord("OR") && IsWord("REPLACE") && IsWord("FUNCTION") && IsWord("PROCEDURE")
    ensures IsWord("TRIGGER")
    ensures IsWord("f") && IsWord("t") && IsWord("AS")
  {
  }

  lemma KnownUppers()
    ensures Upper("CREATE") == "CREATE" && Upper("OR") == "OR" && Upper("FUNCTION") == "FUNCTION" && Upper("AS") == "AS"
    ensures Upper("TRIGGER") == "TRIGGER" && Upper("PROCEDURE") == "PROCEDURE" && Upper("t") == "T"
  {
  }

  lemma SentenceOf(word: string, rest: seq<string>)
    ensures Sentence([word] + rest) == word + (" " + Sentence(rest))
  {
    assert ([word] + rest)[1..] == rest;
  }

  // The words of a definition after CREATE.
  const FUNCTION_TAIL: seq<string> := ["FUNCTION", "f", "AS"]

  lemma FunctionTailText()
    ensures Sentence(FUNCTION_TAIL) == "FUNCTION f AS "
  {
    hide Sentence;
    assert Sentence([]) == "" by { NoWords(); }
    SentenceOf("AS", []);
    SentenceOf("f", ["AS"]);
    SentenceOf("FUNCTION", ["f", "AS"]);
    assert FUNCTION_TAIL == ["FUNCTION"] + ["f", "AS"] && ["f", "AS"] == ["f"] + ["AS"] && ["AS"] == ["AS"] + [];
  }

  lemma Glued(a: string, b: string, c: string)
    ensures a + (" " + (b + c)) == (a + (" " + b)) + c
  {
  }

  lemma ReplaceText(rest: string)
    ensures "CREATE" + (" " + ("OR" + (" " + ("REPLACE" + (" " + rest))))) == "CREATE OR REPLACE " + rest
  {
    Glued("REPLACE", "", rest);
    assert "" + rest == rest && "REPLACE" + (" " + "") == "REPLACE ";
    Glued("OR", "REPLACE ", rest);
    assert "OR" + (" " + "REPLACE ") == "OR REPLACE ";
    Glued("CREATE", "OR REPLACE ", rest);
    assert "CREATE" + (" " + "OR REPLACE ") == "CREATE OR REPLACE ";
  }

  lemma ReplaceRoutineText(kind: string)
    ensures Sentence(ReplaceRoutine(kind)) == "CREATE OR REPLACE " + (kind + " f AS ")
  {
    hide Sentence;
    assert Sentence([]) == "" by { NoWords(); }
    SentenceOf("AS", []);
    SentenceOf("f", ["AS"]);
    SentenceOf(kind, ["f", "AS"]);
    assert ["f", "AS"] == ["f"] + ["AS"] && ["AS"] == ["AS"] + [] && " " + "f AS " == " f AS ";
    var tail := [kind] + ["f", "AS"];
    SentenceOf("REPLACE", tail);
    SentenceOf("OR", ["REPLACE"] + tail);
    SentenceOf("CREATE", ["OR"] + (["REPLACE"] + tail));
    assert ReplaceRoutine(kind) == ["CREATE"] + (["OR"] + (["REPLACE"] + tail));
    ReplaceText(kind + " f AS ");
  }

  lemma NoWords()
    ensures Sentence([]) == ""
  {
  }

  lemma ReplaceRoutineWords(kind: string)
    requires kind == "FUNCTION" || kind == "PROCEDURE"
    ensures var words := ReplaceRoutine(kind);
            AreWords(words) && SaysRoutine(words) && !SaysTrigger(words) && Upper(words[|words| - 1]) == "AS"
  {
    hide IsWord, Upper;
    KnownWords();
    KnownUppers();
    assert Upper(ReplaceRoutine(kind)[3]) == kind;
    assert |"OR"| != |"TRIGGER"|;
  }

  // A function or procedure that may replace an earlier one is found with its body, and refused without one.
  lemma ReplacedRoutineIsFound(rules: Rules, kind: string, body: string)
    requires (kind == "FUNCTION" || kind == "PROCEDURE") && HoldsNoDelimiter(body)
    ensures var head := "CREATE OR REPLACE " + (kind + " f AS ");
            var definition := head + ("$$" + (body + "$$"));
            var name := rules.routineName(head);
            Scan(rules, START, head).None? &&
            Scan(rules, START, definition) ==
            if name.None? then None else Some(Scanned(head + " ", [Routine(name.value, body, Some(definition))]))
  {
    hide Scan, Sentence, SaysRoutine, SaysTrigger, HoldsNoDelimiter, Upper, AreWords;
    ReplaceRoutineText(kind);
    ReplaceRoutineWords(kind);
    StatementOfWords(rules, ReplaceRoutine(kind));
    DefinitionWithBody(rules, ReplaceRoutine(kind), body);
  }

  // ---------- A comment that decides ----------

  lemma TwoComments()
    ensures Next("/**/" + ";") == Some(Piece(Comment, 4)) && Next("/*x*/" + ";") == Some(Piece(Comment, 5))
  {
    hide BlockLen;
    var one, other := "/**/" + ";", "/*x*/" + ";";
    assert one[2..] == "*/;" && other[2..] == "x*/;" && ("*/;")[2..] == ";" && ("x*/;")[1..] == "*/;";
    assert ("*/;")[0..] == "*/;" && ("x*/;")[0..] == "x*/;";
    Ends(";", false, 0, false);
    BlockStep("*/;", 0, 1);
    BlockStep("x*/;", 0, 1);
  }

  const TRIGGER_WORDS: seq<string> := ["CREATE", "TRIGGER", "t"]

  lemma TriggerText()
    ensures Sentence(TRIGGER_WORDS) == "CREATE TRIGGER t "
  {
    hide Sentence;
    assert Sentence([]) == "" by { NoWords(); }
    SentenceOf("t", []);
    SentenceOf("TRIGGER", ["t"]);
    SentenceOf("CREATE", ["TRIGGER", "t"]);
    assert TRIGGER_WORDS == ["CREATE"] + ["TRIGGER", "t"] && ["TRIGGER", "t"] == ["TRIGGER"] + ["t"];
    assert ["t"] == ["t"] + [];
  }

  lemma TriggerWords()
    ensures AreWords(TRIGGER_WORDS) && SaysTrigger(TRIGGER_WORDS) && !SaysRoutine(TRIGGER_WORDS)
    ensures Upper(TRIGGER_WORDS[2]) == "T"
  {
    hide IsWord, Upper;
    KnownWords();
    KnownUppers();
    assert |"TRIGGER"| != |"FUNCTION"| && |"TRIGGER"| != |"PROCEDURE"| && |"T"| == 1;
  }

  lemma CommentEndsTrigger(rules: Rules, st: State, comment: string, body: string)
    requires !st.pending && st.routines == [] && st.statement.raw.Some? && |st.statement.words| > 2
    requires DefinesTrigger(st.statement.words) && !DefinesRoutine(st.statement.words)
    ensures var next := Advance(rules, st, Comment, comment, body);
            next.Some? &&
            (Advance(rules, next.value, Mark, ";", "").Some? <==>
             rules.pinnedTrigger(st.statement.words[2], st.statement.raw.value + comment + ";")) &&
            (Advance(rules, next.value, Mark, ";", "").Some? ==>
               Advance(rules, next.value, Mark, ";", "").value == START)
  {
    hide DefinesRoutine, DefinesTrigger;
  }

  lemma CommentThenSemicolon(rules: Rules, st: State, comment: string)
    requires !st.pending && st.routines == [] && st.statement.raw.Some? && |st.statement.words| > 2
    requires DefinesTrigger(st.statement.words) && !DefinesRoutine(st.statement.words)
    requires comment != "" && Next(comment + ";") == Some(Piece(Comment, |comment|))
    ensures Scan(rules, st, comment + ";").Some? <==>
            rules.pinnedTrigger(st.statement.words[2], st.statement.raw.value + comment + ";")
  {
    hide Next, Scan, DefinesRoutine, DefinesTrigger, Advance, Body, Complete;
    PieceScans(rules, st, Comment, comment, ";");
    CommentEndsTrigger(rules, st, comment, Body(comment + ";", Comment));
    var next := Advance(rules, st, Comment, comment, Body(comment + ";", Comment)).value;
    SemicolonFront();
    assert ";" + "" == ";";
    assert Body(";", Mark) == "" by { UnquotedKindsHaveNoBody(";"); }
    PieceScans(rules, next, Mark, ";", "");
    ScanEnd(rules, START);
    assert Complete(rules, START).Some? by { NothingCompletes(rules); }
  }

  lemma NothingCompletes(rules: Rules)
    ensures Complete(rules, START).Some?
  {
  }

  // A trigger whose definition ends in a comment is accepted exactly when it is pinned with that comment.
  lemma CommentedTrigger(rules: Rules, comment: string)
    requires comment != "" && Next(comment + ";") == Some(Piece(Comment, |comment|))
    ensures Scan(rules, START, "CREATE TRIGGER t " + (comment + ";")).Some? <==>
            rules.pinnedTrigger("T", "CREATE TRIGGER t " + comment + ";")
  {
    hide Next, Scan, Upper, DefinesRoutine, DefinesTrigger, SaysRoutine, SaysTrigger, Sentence, AreWords;
    TriggerText();
    TriggerWords();
    StatementScans(rules, TRIGGER_WORDS, comment + ";");
    WordsSay(TRIGGER_WORDS);
    assert StateAfter(TRIGGER_WORDS).statement.words[2] == Upper(TRIGGER_WORDS[2]);
    CommentThenSemicolon(rules, StateAfter(TRIGGER_WORDS), comment);
  }

  lemma SemicolonFront()
    ensures Next(";") == Some(Piece(Mark, 1))
  {
  }

  // Were a trigger pinned with a comment in its definition, which none of the source's is, editing the comment would
  // have the migration refused.
  lemma CommentInATriggerDecides()
    ensures var rules := Rules(_ => None, (name, text) => text == "CREATE TRIGGER t /**/;");
            Scan(rules, START, "CREATE TRIGGER t " + "/**/;").Some? &&
            Scan(rules, START, "CREATE TRIGGER t " + "/*x*/;").None?
  {
    hide Next, Scan;
    var rules := Rules(_ => None, (name, text) => text == "CREATE TRIGGER t /**/;");
    TwoComments();
    CommentedTrigger(rules, "/**/");
    CommentedTrigger(rules, "/*x*/");
    assert "/**/" + ";" == "/**/;" && "/*x*/" + ";" == "/*x*/;";
    assert "CREATE TRIGGER t " + "/**/" + ";" == "CREATE TRIGGER t /**/;";
    assert |"CREATE TRIGGER t " + "/*x*/" + ";"| == 23 && |"CREATE TRIGGER t /**/;"| == 22;
  }

  // ---------- What counts as hidden ----------

  // A line comment stops just before the first line end, or at the end of the input.
  lemma {:induction false} LineCommentIsOneLine(s: string)
    ensures forall i :: 0 <= i < LineLen(s) ==> !IsNewline(s[i])
    ensures LineLen(s) < |s| ==> IsNewline(s[LineLen(s)])
  {
    if s == "" || IsNewline(s[0]) {
    } else {
      LineCommentIsOneLine(s[1..]);
      forall i | 0 <= i < LineLen(s) ensures !IsNewline(s[i]) {
        if i > 0 { assert s[i] == s[1..][i - 1]; }
      }
    }
  }

  // Closing k levels of comment at the end of `u` leaves the outer levels to what follows.
  lemma {:induction false} BlockCloses(u: string, k: nat, rest: string, depth: nat)
    requires k >= 1 && BlockLen(u, k) == Some(|u|)
    ensures BlockLen(u + rest, depth + k) == After(|u|, BlockLen(rest, depth))
    decreases |u|
  {
    hide BlockLen;
    TwoCharacters(u, k, rest);
    BlockStep(u, 0, k);
    BlockStep(u + rest, 0, depth + k);
    assert u[0..] == u && (u + rest)[0..] == u + rest;
    assert (u + rest)[1..] == u[1..] + rest && (u + rest)[2..] == u[2..] + rest;
    if TwoAt(u, 0, '/', '*') {
      BlockCloses(u[2..], k + 1, rest, depth);
    } else if TwoAt(u, 0, '*', '/') {
      if k == 1 {
        Ends(u[2..], false, 0, false);
        assert u[2..] == "" && u[2..] + rest == rest;
      } else {
        BlockCloses(u[2..], k - 1, rest, depth);
      }
    } else {
      BlockCloses(u[1..], k, rest, depth);
    }
  }

  lemma TwoCharacters(u: string, k: nat, rest: string)
    requires k >= 1 && BlockLen(u, k) == Some(|u|)
    ensures |u| >= 2
  {
    assert BlockLen("", k).None?;
    var tail := if u == "" then "" else u[1..];
    assert tail == "" || |tail| >= 1;
  }

  // Comments nest: a whole comment inside a comment is passed over.
  lemma CommentsNest(inner: string, rest: string, depth: nat)
    requires BlockLen(inner, 1) == Some(|inner|) && depth >= 1
    ensures BlockLen("/*" + (inner + rest), depth) == After(2 + |inner|, BlockLen(rest, depth))
  {
    BlockCloses(inner, 1, rest, depth);
    assert ("/*" + (inner + rest))[2..] == inner + rest;
  }

  // The body of a dollar-quoted text ends at the first occurrence of its delimiter.
  lemma {:induction false} IndexIsFirst(s: string, pattern: string)
    ensures IndexOf(s, pattern).Some? ==> pattern <= s[IndexOf(s, pattern).value..]
    ensures forall i :: 0 <= i <= |s| && pattern <= s[i..] ==>
              IndexOf(s, pattern).Some? && IndexOf(s, pattern).value <= i
    decreases |s|
  {
    if pattern <= s {
      assert s[0..] == s;
    } else if s != "" {
      IndexIsFirst(s[1..], pattern);
      forall i | 0 <= i <= |s| && pattern <= s[i..]
        ensures IndexOf(s, pattern).Some? && IndexOf(s, pattern).value <= i
      {
        assert i > 0 by { assert s[0..] == s; }
        assert s[i..] == s[1..][i - 1..];
      }
      if IndexOf(s[1..], pattern).Some? {
        assert s[1..][IndexOf(s[1..], pattern).value..] == s[IndexOf(s, pattern).value..];
      }
    }
  }

  // ---------- Literals ----------

  // A literal's text with its quotes doubled.
  function Quoted(value: string): string {
    if value == "" then ""
    else (if value[0] == '\'' then "''" else [value[0]]) + Quoted(value[1..])
  }

  // Reading a literal undoes writing it, as long as no further quote follows.
  lemma {:induction false} QuotingRoundTrips(value: string, rest: string)
    requires rest != "" ==> rest[0] != '\''
    ensures QuoteLen(Quoted(value) + ("'" + rest), false) == Some(|Quoted(value)| + 1)
    ensures Unquoted(Quoted(value) + ("'" + rest), false) == value
    decreases |value|
  {
    var tail := "'" + rest;
    var s := Quoted(value) + tail;
    if value == "" {
      assert s == tail;
    } else {
      QuotingRoundTrips(value[1..], rest);
      var next := Quoted(value[1..]) + tail;
      if value[0] == '\'' {
        assert s[2..] == next;
      } else {
        assert s[1..] == next;
      }
      assert value == [value[0]] + value[1..];
    }
  }

  // ---------- A backslash that decides ----------

  const FUNCTION_WORDS: seq<string> := ["CREATE", "FUNCTION", "f", "AS"]

  lemma FunctionText()
    ensures Sentence(FUNCTION_WORDS) == "CREATE FUNCTION f AS "
  {
    hide Sentence;
    FunctionTailText();
    SentenceOf("CREATE", FUNCTION_TAIL);
    assert FUNCTION_WORDS == ["CREATE"] + FUNCTION_TAIL;
    assert "CREATE" + (" " + "FUNCTION f AS ") == "CREATE FUNCTION f AS ";
  }

  lemma FunctionWords()
    ensures AreWords(FUNCTION_WORDS) && SaysRoutine(FUNCTION_WORDS) && !SaysTrigger(FUNCTION_WORDS)
    ensures Upper(FUNCTION_WORDS[|FUNCTION_WORDS| - 1]) == "AS"
  {
    hide IsWord, Upper;
    KnownWords();
    KnownUppers();
    assert Upper(FUNCTION_WORDS[1]) == "FUNCTION" && |"TRIGGER"| != |"FUNCTION"|;
  }

  lemma {:induction false} QuotedHoldsSameBackslash(value: string)
    ensures '\\' in Quoted(value) <==> '\\' in value
  {
    if value == "" {
    } else {
      QuotedHoldsSameBackslash(value[1..]);
      assert value == [value[0]] + value[1..];
    }
  }

  lemma LiteralAlone(value: string)
    ensures var literal := "'" + (Quoted(value) + "'");
            Next(literal) == Some(Piece(Literal(false), |literal|)) && ('\\' in literal <==> '\\' in value)
  {
    hide QuoteLen, Unquoted, Quoted, LineLen, BlockLen, TagLen;
    var literal := "'" + (Quoted(value) + "'");
    QuotingRoundTrips(value, "");
    assert "'" + "" == "'" && literal[1..] == Quoted(value) + "'";
    QuotedHoldsSameBackslash(value);
  }

  // A routine whose body is written as a literal is accepted exactly when the body holds no backslash, wherever its
  // name can be read from "CREATE FUNCTION f AS ".
  lemma BackslashInABodyDecides(rules: Rules, value: string)
    requires rules.routineName("CREATE FUNCTION f AS ").Some?
    ensures Scan(rules, START, "CREATE FUNCTION f AS " + ("'" + (Quoted(value) + "'"))).Some? <==> '\\' !in value
  {
    hide Next, Scan, Quoted, Body, Shown, Sentence, Upper, SaysRoutine, SaysTrigger, DefinesRoutine, DefinesTrigger,
         AreWords;
    var literal := "'" + (Quoted(value) + "'");
    FunctionText();
    FunctionWords();
    LiteralAlone(value);
    StatementScans(rules, FUNCTION_WORDS, literal);
    WordsSay(FUNCTION_WORDS);
    assert literal + "" == literal;
    var st := StateAfter(FUNCTION_WORDS);
    PieceScans(rules, st, Literal(false), literal, "");
    var next := Advance(rules, st, Literal(false), literal, Body(literal, Literal(false)));
    if next.Some? { ScanEnd(rules, next.value); }
  }

  // ---------- Unterminated quoted identifiers ----------

  // A quoted identifier that a quote closes, after its opening quote.
  function ClosedNameLen(s: string): Option<nat> {
    if s == "" then None
    else if s[0] == '"' then if |s| >= 2 && s[1] == '"' then After(2, ClosedNameLen(s[2..])) else Some(1)
    else After(1, ClosedNameLen(s[1..]))
  }

  // Exactly when an identifier that nothing closes is let through: when the input's last character is a quote.
  lemma {:induction false} UnterminatedNamesAccepted(s: string, afterQuote: bool)
    ensures ClosedNameLen(s).Some? ==> NameLen(s, afterQuote) == ClosedNameLen(s)
    ensures ClosedNameLen(s).None? ==>
              NameLen(s, afterQuote) == if (if s == "" then afterQuote else s[|s| - 1] == '"') then Some(|s|) else None
    decreases |s|
  {
    if s == "" {
    } else {
      if s[0] == '"' && |s| >= 2 && s[1] == '"' {
        UnterminatedNamesAccepted(s[2..], true);
      } else if s[0] != '"' {
        UnterminatedNamesAccepted(s[1..], false);
      }
    }
  }

  lemma TwoUnclosedNames()
    ensures ClosedNameLen("").None? && ClosedNameLen("a\"\"").None?
  {
    assert ("a\"\"")[1..] == "\"\"" && ("\"\"")[2..] == "";
    assert ClosedNameLen("\"\"").None?;
  }

  lemma NamesToTheEnd()
    ensures Next("\"") == Some(Piece(Name, 1)) && Next("\"a\"\"") == Some(Piece(Name, 4)) && Next("\"a").None?
  {
    assert ("a\"\"")[1..] == "\"\"" && ("\"\"")[2..] == "";
    assert ("\"")[1..] == "" && ("\"a\"\"")[1..] == "a\"\"" && ("\"a")[1..] == "a" && ("a")[1..] == "";
    assert NameLen("a", true) == None;
    assert NameLen("a\"\"", true) == Some(3);
    assert NameLen("", true) == Some(0);
  }

  // An input that is one quoted identifier.
  lemma NameAloneScans(rules: Rules, s: string)
    requires s != "" && Next(s) == Some(Piece(Name, |s|))
    ensures Scan(rules, START, s) == Some(Scanned(" ", []))
  {
    hide Next, Scan;
    ScanFront(rules, START, s);
    assert s[..|s|] == s && s[|s|..] == "";
    var next := Advance(rules, START, Name, s, Body(s, Name));
    assert next.Some? && next.value.statement == Statement([], None) && !next.value.pending &&
           next.value.routines == [];
    ScanEnd(rules, next.value);
    assert " " + "" == " ";
  }

  // So an input may end inside a quoted identifier: a lone quote is accepted, and so is one whose last quote is
  // doubled.
  lemma AnUnterminatedNameIsAccepted(rules: Rules)
    ensures ClosedNameLen("").None? && Scan(rules, START, "\"") == Some(Scanned(" ", []))
    ensures ClosedNameLen("a\"\"").None? && Scan(rules, START, "\"a\"\"") == Some(Scanned(" ", []))
    ensures Scan(rules, START, "\"a").None?
  {
    hide Scan, Next, NameLen, ClosedNameLen, Complete;
    assert ("a\"\"")[1..] == "\"\"" && ("\"\"")[2..] == "" && ("a")[1..] == "";
    assert ClosedNameLen("").None? && ClosedNameLen("a\"\"").None? by { TwoUnclosedNames(); }
    NamesToTheEnd();
    NameAloneScans(rules, "\"");
    NameAloneScans(rules, "\"a\"\"");
    RefusedPiece(rules, START, "\"a");
  }
}
