/** Quoting a path for the shell commands run in the Vault pods: internal/k8s/pods.go.

The reader is the token recognition of the POSIX.1-2017 Shell Command Language, section 2.3, with the
quoting of sections 2.2.1 to 2.2.3.  Expansions are not read: an unquoted or double-quoted `$` or
backquote takes the lexer to Beyond. */
module ShellQuote {
  import opened Requests

  /** strings.ReplaceAll(s, "'", `'\''`) */
  function ReplaceQuotes(s: string): string {
    if s == "" then ""
    else (if s[0] == '\'' then ['\'', '\\', '\'', '\''] else [s[0]]) + ReplaceQuotes(s[1..])
  }

  function Quote(s: string): string {
    ['\''] + ReplaceQuotes(s) + ['\'']
  }

  // ----- The reader -----

  /** A word has its quotes removed. */
  datatype Token = Word(value: string) | Operator(text: string)

  datatype Mode = Plain | Escaped | Single | Double | DoubleEscaped | Comment | Beyond

  /** A word or an operator may be in progress. */
  datatype Lexer = Lexer(mode: Mode, word: Option<string>, op: string, tokens: seq<Token>)

  const START: Lexer := Lexer(Plain, None, "", [])

  predicate IsBlank(c: char) {
    c == ' ' || c == '\t'
  }

  predicate IsOperatorChar(c: char) {
    c in {'&', '|', ';', '<', '>', '(', ')', '\n'}
  }

  predicate IsOperator(text: string) {
    text in {"&&", "||", ";;", "<<", ">>", "<&", ">&", "<>", "<<-", ">|"}
  }

  function EndOperator(st: Lexer): Lexer {
    if st.op == "" then st else st.(op := "", tokens := st.tokens + [Operator(st.op)])
  }

  function EndWord(st: Lexer): Lexer {
    if st.word.None? then st else st.(word := None, tokens := st.tokens + [Word(st.word.value)])
  }

  /** The text of the word in progress, if there is one; a quote starts one even if nothing follows. */
  function Text(st: Lexer): string {
    if st.word.None? then "" else st.word.value
  }

  function Append(st: Lexer, text: string): Lexer {
    st.(word := Some(Text(st) + text))
  }

  function PlainStep(st: Lexer, c: char): Lexer {
    if c == '\'' then Append(st, "").(mode := Single)
    else if c == '"' then Append(st, "").(mode := Double)
    else if c == '\\' then st.(mode := Escaped)
    else if c == '$' || c == '`' then st.(mode := Beyond)
    else if IsOperatorChar(c) then EndWord(st).(op := [c])
    else if IsBlank(c) then EndWord(st)
    else if st.word.Some? then Append(st, [c])
    else if c == '#' then st.(mode := Comment)
    else Append(st, [c])
  }

  function Step(st: Lexer, c: char): Lexer {
    match st.mode
    case Plain =>
      if st.op != "" && IsOperator(st.op + [c]) then st.(op := st.op + [c]) else PlainStep(EndOperator(st), c)
    case Escaped => if c == '\n' then st.(mode := Plain) else Append(st, [c]).(mode := Plain)
    case Single => if c == '\'' then st.(mode := Plain) else Append(st, [c])
    case Double =>
      if c == '"' then st.(mode := Plain)
      else if c == '\\' then st.(mode := DoubleEscaped)
      else if c == '$' || c == '`' then st.(mode := Beyond)
      else Append(st, [c])
    case DoubleEscaped =>
      var keeps := c in {'$', '`', '"', '\\'};
      var st' := if c == '\n' then st else if keeps then Append(st, [c]) else Append(st, ['\\', c]);
      st'.(mode := Double)
    case Comment => if c == '\n' then st.(mode := Plain, op := [c]) else st
    case Beyond => st
  }

  function Lex(st: Lexer, s: string): Lexer
    decreases s
  {
    if s == "" then st else Lex(Step(st, s[0]), s[1..])
  }

  /** The end of input delimits what is in progress. */
  function Finish(st: Lexer): Lexer {
    EndWord(EndOperator(st))
  }

  lemma {:induction false} LexConcat(st: Lexer, a: string, b: string)
    ensures Lex(st, a + b) == Lex(Lex(st, a), b)
    decreases a
  {
    var s := a + b;
    if a == "" {
      assert s == b && Lex(st, a) == st;
    } else {
      assert s != "" && s[0] == a[0] && s[1..] == a[1..] + b;
      calc {
        Lex(st, s);
        Lex(Step(st, a[0]), a[1..] + b);
        { LexConcat(Step(st, a[0]), a[1..], b); }
        Lex(Lex(Step(st, a[0]), a[1..]), b);
        Lex(Lex(st, a), b);
      }
    }
  }

  // ----- The round trip -----

  lemma {:induction false} LexOne(st: Lexer, a: char, rest: string)
    ensures Lex(st, [a] + rest) == Lex(Step(st, a), rest)
  {
    assert ([a] + rest)[1..] == rest;
  }

  lemma {:induction false} LexFour(st: Lexer, a: char, b: char, c: char, d: char, rest: string)
    ensures Lex(st, [a, b, c, d] + rest) == Lex(Step(Step(Step(Step(st, a), b), c), d), rest)
  {
    var three := [b] + ([c] + ([d] + rest));
    assert [a, b, c, d] + rest == [a] + three;
    LexOne(st, a, three);
    LexOne(Step(st, a), b, [c] + ([d] + rest));
    LexOne(Step(Step(st, a), b), c, [d] + rest);
    LexOne(Step(Step(Step(st, a), b), c), d, rest);
  }

  /** Inside single quotes the replaced text reads as the text, up to the closing quote. */
  lemma {:induction false} QuotedTextReadsBack(st: Lexer, s: string, rest: string)
    requires st.mode.Single? && st.op == "" && st.word.Some?
    ensures Lex(st, ReplaceQuotes(s) + rest) == Lex(Append(st, s), rest)
    decreases s
  {
    if s == "" {
      assert ReplaceQuotes(s) + rest == rest && Text(st) + "" == Text(st);
    } else {
      var more := ReplaceQuotes(s[1..]) + rest;
      var st1 := Append(st, [s[0]]);
      if s[0] == '\'' {
        assert ReplaceQuotes(s) + rest == ['\'', '\\', '\'', '\''] + more;
        LexFour(st, '\'', '\\', '\'', '\'', more);
        var st2 := Append(st, ['\'']);
        assert Text(st2) + "" == Text(st2);
        assert Step(Step(Step(st, '\''), '\\'), '\'') == st2.(mode := Plain);
        assert Step(st2.(mode := Plain), '\'') == st1;
      } else {
        assert ReplaceQuotes(s) + rest == [s[0]] + more;
        LexOne(st, s[0], more);
      }
      QuotedTextReadsBack(st1, s[1..], rest);
      assert (Text(st) + [s[0]]) + s[1..] == Text(st) + s;
    }
  }

  /** A quoted text extends the word in progress, or is a word of its own, by exactly the text, whatever
      follows it. */
  lemma {:induction false} QuoteReadsBack(st: Lexer, s: string, rest: string)
    requires st.mode.Plain?
    ensures Lex(st, Quote(s) + rest) == Lex(Append(EndOperator(st), s), rest)
  {
    var open := Append(EndOperator(st), "").(mode := Single);
    assert Quote(s) + rest == ['\''] + (ReplaceQuotes(s) + (['\''] + rest));
    LexOne(st, '\'', ReplaceQuotes(s) + (['\''] + rest));
    assert !IsOperator(st.op + ['\'']) by {
      assert (st.op + ['\''])[|st.op|] == '\'';
    }
    assert Step(st, '\'') == open;
    QuotedTextReadsBack(open, s, ['\''] + rest);
    LexOne(Append(open, s), '\'', rest);
    assert Text(open) + s == Text(EndOperator(st)) + s;
    assert Step(Append(open, s), '\'') == Append(EndOperator(st), s);
  }

  /** On its own, a quoted text is one word, the text. */
  lemma {:induction false} QuoteIsOneWord(s: string)
    ensures Finish(Lex(START, Quote(s))).tokens == [Word(s)] && Lex(START, Quote(s)).mode.Plain?
  {
    assert Quote(s) + "" == Quote(s);
    QuoteReadsBack(START, s, "");
    assert "" + s == s;
  }

  /** Between blanks or tabs in a larger command, a quoted text is one word, the text, and leaves the reading of
      what precedes and of what follows alone. */
  lemma {:induction false} QuoteIsOneWordInContext(before: string, s: string, after: string, x: char, y: char)
    requires Lex(START, before).mode.Plain? && x in {' ', '\t'} && y in {' ', '\t'}
    ensures var b := EndWord(EndOperator(Lex(START, before)));
            Lex(START, before + [x] + Quote(s) + [y] + after) == Lex(b.(tokens := b.tokens + [Word(s)]), after)
  {
    var st := Lex(START, before);
    var b := EndWord(EndOperator(st));
    assert before + [x] + Quote(s) + [y] + after == before + ([x] + (Quote(s) + ([y] + after)));
    LexConcat(START, before, [x] + (Quote(s) + ([y] + after)));
    BlankEnds(st, x, Quote(s) + ([y] + after));
    QuoteReadsBack(b, s, [y] + after);
    assert "" + s == s;
    BlankEnds(Append(b, s), y, after);
  }

  lemma {:induction false} BlankEnds(st: Lexer, x: char, rest: string)
    requires st.mode.Plain? && x in {' ', '\t'}
    ensures Lex(st, [x] + rest) == Lex(EndWord(EndOperator(st)), rest)
  {
    LexOne(st, x, rest);
    assert !IsOperator(st.op + [x]) by {
      assert (st.op + [x])[|st.op|] == x;
    }
  }

  /** No two texts are quoted alike. */
  lemma {:induction false} QuoteIsInjective(a: string, b: string)
    requires Quote(a) == Quote(b)
    ensures a == b
  {
    QuoteIsOneWord(a);
    QuoteIsOneWord(b);
    assert [Word(a)][0] == [Word(b)][0];
  }

  // ----- Whole commands -----

  /** A command line of bare words, quoted texts and operators. */
  datatype Item = Bare(text: string) | Quoted(value: string) | Op(text: string)

  predicate Ordinary(c: char) {
    c !in {'\'', '"', '\\', '$', '`', '#'} && !IsOperatorChar(c) && !IsBlank(c)
  }

  /** Words need no quoting as written, and a semicolon closes a word. */
  ghost predicate WellFormed(items: seq<Item>) {
    && (forall x :: x in items && x.Bare? ==> IsWord(x.text))
    && (forall x :: x in items && x.Op? ==> x.text in {";", ">", "&&"})
    && (forall i :: 0 < i < |items| && items[i] == Op(";") ==> !items[i - 1].Op?)
  }

  function ItemText(x: Item): string {
    match x
    case Bare(text) => text
    case Quoted(value) => Quote(value)
    case Op(text) => text
  }

  function ItemToken(x: Item): Token {
    match x
    case Bare(text) => Word(text)
    case Quoted(value) => Word(value)
    case Op(text) => Operator(text)
  }

  function Tokens(items: seq<Item>): seq<Token> {
    if items == [] then [] else [ItemToken(items[0])] + Tokens(items[1..])
  }

  /** The items, each after a blank, but a semicolon right after its word. */
  function Tail(items: seq<Item>): string {
    if items == [] then ""
    else (if items[0] == Op(";") then "" else " ") + (ItemText(items[0]) + Tail(items[1..]))
  }

  function Render(items: seq<Item>): string {
    if items == [] then "" else ItemText(items[0]) + Tail(items[1..])
  }

  lemma {:induction false} BareReads(st: Lexer, w: string, rest: string)
    requires st.mode.Plain? && st.op == ""
    requires forall i :: 0 <= i < |w| ==> Ordinary(w[i])
    ensures Lex(st, w + rest) == Lex(if w == "" then st else Append(st, w), rest)
    decreases w
  {
    if w == "" {
      assert w + rest == rest;
    } else {
      assert w + rest == [w[0]] + (w[1..] + rest);
      LexOne(st, w[0], w[1..] + rest);
      BareReads(Append(st, [w[0]]), w[1..], rest);
      assert (Text(st) + [w[0]]) + w[1..] == Text(st) + w;
      if w[1..] == "" {
        assert w == [w[0]];
      }
    }
  }

  lemma {:induction false} OpReads(st: Lexer, text: string, rest: string)
    requires st.mode.Plain? && st.op == "" && text in {";", ">", "&&"}
    ensures Lex(st, text + rest) == Lex(EndWord(st).(op := text), rest)
  {
    if text == "&&" {
      assert text + rest == ['&'] + (['&'] + rest);
      LexOne(st, '&', ['&'] + rest);
      assert IsOperator(['&'] + ['&']) by {
        assert ['&'] + ['&'] == "&&";
      }
      LexOne(EndWord(st).(op := ['&']), '&', rest);
      assert ['&'] + ['&'] == text;
    } else {
      assert text == [text[0]];
      LexOne(st, text[0], rest);
    }
  }

  /** One item after what is in progress was delimited, or a semicolon after a word. */
  lemma {:induction false} ItemReads(st: Lexer, x: Item, rest: string) returns (st': Lexer)
    requires st.mode.Plain? && st.op == "" && (x != Op(";") ==> st.word.None?) && WellFormed([x])
    ensures Lex(st, ItemText(x) + rest) == Lex(st', rest)
    ensures st'.mode.Plain? && (x.Op? <==> st'.op != "") && Finish(st').tokens == EndWord(st).tokens + [ItemToken(x)]
  {
    assert x in [x];
    match x
    case Bare(text) =>
      BareReads(st, text, rest);
      st' := Append(st, text);
      assert "" + text == text;
    case Quoted(value) =>
      QuoteReadsBack(st, value, rest);
      st' := Append(st, value);
      assert "" + value == value;
    case Op(text) =>
      OpReads(st, text, rest);
      st' := EndWord(st).(op := text);
  }

  lemma {:induction false} TailReads(st: Lexer, items: seq<Item>)
    requires st.mode.Plain? && WellFormed(items)
    requires items != [] && items[0] == Op(";") ==> st.op == ""
    ensures var end := Lex(st, Tail(items)); end.mode.Plain? && Finish(end).tokens == Finish(st).tokens + Tokens(items)
    decreases |items|
  {
    if items == [] {
      assert Finish(st).tokens + [] == Finish(st).tokens;
    } else {
      var x, rest := items[0], Tail(items[1..]);
      var ready := Delimited(st, x, rest);
      WellFormedParts(items);
      var st' := ItemReads(ready, x, rest);
      assert Lex(st, Tail(items)) == Lex(st', rest);
      TailReads(st', items[1..]);
      Associate(Finish(st).tokens, [ItemToken(x)], Tokens(items[1..]));
    }
  }

  lemma {:induction false} Associate<T>(a: seq<T>, b: seq<T>, c: seq<T>)
    ensures (a + b) + c == a + (b + c)
  {
  }

  /** What is in progress before an item, after the blank that may precede the item. */
  lemma {:induction false} Delimited(st: Lexer, x: Item, rest: string) returns (ready: Lexer)
    requires st.mode.Plain? && (x == Op(";") ==> st.op == "")
    ensures Lex(st, (if x == Op(";") then "" else " ") + (ItemText(x) + rest)) == Lex(ready, ItemText(x) + rest)
    ensures ready.mode.Plain? && ready.op == "" && (x != Op(";") ==> ready.word.None?)
    ensures EndWord(ready).tokens == Finish(st).tokens
  {
    var more := ItemText(x) + rest;
    if x == Op(";") {
      assert "" + more == more;
      ready := st;
    } else {
      assert " " + more == [' '] + more;
      BlankEnds(st, ' ', more);
      ready := EndWord(EndOperator(st));
    }
  }

  lemma {:induction false} WellFormedParts(items: seq<Item>)
    requires WellFormed(items) && items != []
    ensures WellFormed([items[0]]) && WellFormed(items[1..])
    ensures |items| > 1 && items[1] == Op(";") ==> !items[0].Op?
  {
    assert items[0] in items && forall x :: x in items[1..] ==> x in items;
    forall i | 0 < i < |items[1..]| && items[1..][i] == Op(";")
      ensures !items[1..][i - 1].Op?
    {
      assert items[i + 1] == Op(";");
    }
  }

  /** Every such command is read as its items: each bare word, each quoted text and each operator one token, in order,
      with no quote left open. */
  lemma {:induction false} CommandReads(items: seq<Item>)
    requires WellFormed(items) && items != [] && !items[0].Op?
    ensures var end := Lex(START, Render(items)); end.mode.Plain? && Finish(end).tokens == Tokens(items)
  {
    WellFormedParts(items);
    var x, more := items[0], items[1..];
    var st := ItemReads(START, x, Tail(more));
    TailReads(st, more);
    assert Finish(st).tokens == [] + [ItemToken(x)] == [ItemToken(x)];
  }

  // ----- The manager's own commands -----

  /** The scripts of FileSHA256, EnsureFile's copy and RemoveFile. */
  function ChecksumScript(path: string): string {
    "if [ -f " + Quote(path) + " ]; then sha256sum " + Quote(path) + "; fi"
  }

  function WriteScript(path: string, mode: string): string {
    "cat > " + Quote(path) + " && chmod " + mode + " " + Quote(path)
  }

  function RemoveScript(path: string): string {
    "rm -f " + Quote(path)
  }

  /** And what they are meant to be. */
  function ChecksumCommand(path: string): seq<Item> {
    [Bare("if")] + ([Bare("[")] + ([Bare("-f")] + ([Quoted(path)] + ChecksumRest(path))))
  }

  function ChecksumRest(path: string): seq<Item> {
    [Bare("]")] + ([Op(";")] + ([Bare("then")] + ([Bare("sha256sum")] + ([Quoted(path)] + ([Op(";")] + [Bare("fi")])))))
  }

  function WriteCommand(path: string, mode: string): seq<Item> {
    [Bare("cat")] + ([Op(">")] + ([Quoted(path)] + ([Op("&&")] + ([Bare("chmod")] + ([Bare(mode)] + [Quoted(path)])))))
  }

  function RemoveCommand(path: string): seq<Item> {
    [Bare("rm")] + ([Bare("-f")] + [Quoted(path)])
  }

  predicate IsWord(w: string) {
    w != "" && forall i :: 0 <= i < |w| ==> Ordinary(w[i])
  }

  function Separator(x: Item): string {
    if x == Op(";") then "" else " "
  }

  /** `items` is well formed, and its tail reads `lit` and then `u`. */
  ghost predicate Reads(items: seq<Item>, lit: string, u: string) {
    WellFormed(items) && Tail(items) == lit + u
  }

  /** One more item in front, with its text written as part of `lit'`. */
  lemma {:induction false} InFront(x: Item, items: seq<Item>, lit: string, u: string, lit': string)
    requires Reads(items, lit, u) && WellFormed([x]) && (x.Op? ==> items != [] && items[0] != Op(";"))
    requires lit' == Separator(x) + ItemText(x) + lit
    ensures Reads([x] + items, lit', u)
  {
    FrontIsWellFormed(x, items);
    assert ([x] + items)[0] == x && ([x] + items)[1..] == items;
    Associate(ItemText(x), lit, u);
    Associate(Separator(x), ItemText(x) + lit, u);
    Associate(Separator(x), ItemText(x), lit);
  }

  lemma {:induction false} FrontIsWellFormed(x: Item, items: seq<Item>)
    requires WellFormed(items) && WellFormed([x]) && (x.Op? ==> items != [] && items[0] != Op(";"))
    ensures WellFormed([x] + items)
  {
    var all := [x] + items;
    assert x in [x];
    forall i | 0 < i < |all| && all[i] == Op(";")
      ensures !all[i - 1].Op?
    {
      assert items[i - 1] == all[i];
    }
  }

  lemma {:induction false} WordInFront(w: string, items: seq<Item>, lit: string, u: string, lit': string)
    requires Reads(items, lit, u) && IsWord(w) && lit' == " " + w + lit
    ensures Reads([Bare(w)] + items, lit', u)
  {
    assert forall x :: x in [Bare(w)] ==> x == Bare(w);
    InFront(Bare(w), items, lit, u, lit');
  }

  lemma {:induction false} QuotedInFront(path: string, items: seq<Item>, lit: string, u: string)
    requires Reads(items, lit, u)
    ensures Reads([Quoted(path)] + items, " ", Quote(path) + (lit + u))
  {
    assert forall x :: x in [Quoted(path)] ==> x == Quoted(path);
    assert lit + u == "" + (lit + u);
    assert " " + Quote(path) + (lit + u) == " " + (Quote(path) + (lit + u));
    InFront(Quoted(path), items, "", lit + u, " " + Quote(path));
  }

  lemma {:induction false} OpInFront(op: string, items: seq<Item>, lit: string, u: string, lit': string)
    requires Reads(items, lit, u) && op in {";", ">", "&&"} && items != [] && items[0] != Op(";")
    requires lit' == Separator(Op(op)) + op + lit
    ensures Reads([Op(op)] + items, lit', u)
  {
    assert forall x :: x in [Op(op)] ==> x == Op(op);
    InFront(Op(op), items, lit, u, lit');
  }

  /** The first word of a command has no blank in front. */
  lemma {:induction false} FirstWord(w: string, items: seq<Item>, lit: string, u: string, lit': string)
    requires Reads(items, lit, u) && IsWord(w) && lit' == w + lit
    ensures WellFormed([Bare(w)] + items) && Render([Bare(w)] + items) == lit' + u
  {
    assert forall x :: x in [Bare(w)] ==> x == Bare(w);
    FrontIsWellFormed(Bare(w), items);
    assert ([Bare(w)] + items)[0] == Bare(w) && ([Bare(w)] + items)[1..] == items;
    Associate(w, lit, u);
  }

  lemma {:induction false} EndReads()
    ensures Reads([], "", "")
  {
  }

  lemma {:induction false} LastQuoted(path: string)
    ensures Reads([Quoted(path)], " ", Quote(path))
  {
    EndReads();
    QuotedInFront(path, [], "", "");
    assert [Quoted(path)] + [] == [Quoted(path)] && Quote(path) + ("" + "") == Quote(path);
  }

  lemma {:induction false} CommandWords()
    ensures IsWord("if") && IsWord("[") && IsWord("-f") && IsWord("]") && IsWord("then") && IsWord("sha256sum")
            && IsWord("fi")
    ensures IsWord("cat") && IsWord("chmod") && IsWord("rm")
  {
  }

  lemma {:induction false} FiReads()
    ensures Reads([Op(";")] + [Bare("fi")], "; fi", "")
  {
    CommandWords();
    EndReads();
    WordInFront("fi", [], "", "", " fi");
    assert [Bare("fi")] + [] == [Bare("fi")];
    OpInFront(";", [Bare("fi")], " fi", "", "; fi");
  }

  lemma {:induction false} SumReads(items: seq<Item>, u: string)
    requires Reads(items, " ", u)
    ensures Reads([Bare("sha256sum")] + items, " sha256sum ", u)
  {
    CommandWords();
    WordInFront("sha256sum", items, " ", u, " sha256sum ");
  }

  lemma {:induction false} ThenReads(items: seq<Item>, u: string)
    requires Reads(items, " sha256sum ", u)
    ensures Reads([Bare("then")] + items, " then sha256sum ", u)
  {
    CommandWords();
    WordInFront("then", items, " sha256sum ", u, " then sha256sum ");
  }

  lemma {:induction false} CloseReads(items: seq<Item>, u: string)
    requires Reads(items, " then sha256sum ", u) && items != [] && items[0] != Op(";")
    ensures Reads([Op(";")] + items, "; then sha256sum ", u)
  {
    CloseText();
    OpInFront(";", items, " then sha256sum ", u, "; then sha256sum ");
  }

  lemma {:induction false} BracketText()
    ensures " ]; then sha256sum " == " " + "]" + "; then sha256sum "
  {
  }

  lemma {:induction false} CloseText()
    ensures "; then sha256sum " == "" + ";" + " then sha256sum "
  {
  }

  lemma {:induction false} BracketReads(items: seq<Item>, u: string)
    requires Reads(items, "; then sha256sum ", u)
    ensures Reads([Bare("]")] + items, " ]; then sha256sum ", u)
  {
    CommandWords();
    BracketText();
    WordInFront("]", items, "; then sha256sum ", u, " ]; then sha256sum ");
  }

  lemma {:induction false} TestReads(items: seq<Item>, u: string)
    requires Reads(items, " ", u)
    ensures WellFormed([Bare("if")] + ([Bare("[")] + ([Bare("-f")] + items)))
    ensures Render([Bare("if")] + ([Bare("[")] + ([Bare("-f")] + items))) == "if [ -f " + u
  {
    CommandWords();
    WordInFront("-f", items, " ", u, " -f ");
    WordInFront("[", [Bare("-f")] + items, " -f ", u, " [ -f ");
    FirstWord("if", [Bare("[")] + ([Bare("-f")] + items), " [ -f ", u, "if [ -f ");
  }

  lemma {:induction false} ChecksumRendered(path: string)
    ensures WellFormed(ChecksumCommand(path)) && Render(ChecksumCommand(path)) == ChecksumScript(path)
  {
    var q, fi := Quote(path), [Op(";")] + [Bare("fi")];
    FiReads();
    QuotedInFront(path, fi, "; fi", "");
    var u := q + ("; fi" + "");
    SumReads([Quoted(path)] + fi, u);
    ThenReads([Bare("sha256sum")] + ([Quoted(path)] + fi), u);
    var sum := [Bare("then")] + ([Bare("sha256sum")] + ([Quoted(path)] + fi));
    CloseReads(sum, u);
    BracketReads([Op(";")] + sum, u);
    QuotedInFront(path, [Bare("]")] + ([Op(";")] + sum), " ]; then sha256sum ", u);
    TestReads([Quoted(path)] + ([Bare("]")] + ([Op(";")] + sum)), q + (" ]; then sha256sum " + u));
    FiveParts("if [ -f ", q, " ]; then sha256sum ", q, "; fi");
  }

  lemma {:induction false} FiveParts(a: string, b: string, c: string, d: string, e: string)
    ensures a + (b + (c + (d + (e + "")))) == a + b + c + d + e
  {
    assert e + "" == e;
    Associate(c, d, e);
    Associate(b, c + d, e);
    Associate(b, c, d);
    Associate(a, b + c + d, e);
    Associate(a, b + c, d);
    Associate(a, b, c);
  }

  lemma {:induction false} ChmodReads(items: seq<Item>, u: string)
    requires Reads(items, " ", u)
    ensures Reads([Op("&&")] + ([Bare("chmod")] + items), " && chmod ", u)
  {
    CommandWords();
    WordInFront("chmod", items, " ", u, " chmod ");
    OpInFront("&&", [Bare("chmod")] + items, " chmod ", u, " && chmod ");
  }

  lemma {:induction false} ModeReads(path: string, mode: string)
    requires IsWord(mode)
    ensures Reads([Bare(mode)] + [Quoted(path)], " ", mode + " " + Quote(path))
  {
    var q := Quote(path);
    LastQuoted(path);
    WordInFront(mode, [Quoted(path)], " ", q, " " + mode + " ");
    Associate(" ", mode, " ");
    Associate(" ", mode + " ", q);
  }

  lemma {:induction false} CopyReads(items: seq<Item>, u: string)
    requires Reads(items, " ", u) && items != [] && items[0] != Op(";")
    ensures WellFormed([Bare("cat")] + ([Op(">")] + items))
            && Render([Bare("cat")] + ([Op(">")] + items)) == "cat > " + u
  {
    CommandWords();
    OpInFront(">", items, " ", u, " > ");
    FirstWord("cat", [Op(">")] + items, " > ", u, "cat > ");
  }

  lemma {:induction false} WriteRendered(path: string, mode: string)
    requires IsWord(mode)
    ensures WellFormed(WriteCommand(path, mode)) && Render(WriteCommand(path, mode)) == WriteScript(path, mode)
  {
    var q, u := Quote(path), mode + " " + Quote(path);
    var more := [Op("&&")] + ([Bare("chmod")] + ([Bare(mode)] + [Quoted(path)]));
    ModeReads(path, mode);
    ChmodReads([Bare(mode)] + [Quoted(path)], u);
    QuotedInFront(path, more, " && chmod ", u);
    CopyReads([Quoted(path)] + more, q + (" && chmod " + u));
    SixParts("cat > ", q, " && chmod ", mode, " ", q);
  }

  lemma {:induction false} SixParts(a: string, b: string, c: string, d: string, e: string, f: string)
    ensures a + (b + (c + (d + e + f))) == a + b + c + d + e + f
  {
    Associate(c, d + e, f);
    Associate(b, c + (d + e), f);
    Associate(a, b + (c + (d + e)), f);
    Associate(c, d, e);
    Associate(b, c + d, e);
    Associate(a, b + (c + d), e);
    Associate(b, c, d);
    Associate(a, b + c, d);
    Associate(a, b, c);
  }

  lemma {:induction false} RemoveRendered(path: string)
    ensures WellFormed(RemoveCommand(path)) && Render(RemoveCommand(path)) == RemoveScript(path)
  {
    CommandWords();
    LastQuoted(path);
    WordInFront("-f", [Quoted(path)], " ", Quote(path), " -f ");
    FirstWord("rm", [Bare("-f")] + [Quoted(path)], " -f ", Quote(path), "rm -f ");
  }

  /** `script` is read as `command`. */
  ghost predicate ReadAs(script: string, command: seq<Item>) {
    var end := Lex(START, script); end.mode.Plain? && Finish(end).tokens == Tokens(command)
  }

  /** Whatever the path, the three scripts are read as the commands they are meant to be, if the file mode is a plain
      word: it is not quoted. */
  lemma {:induction false} ScriptsReadAsMeant(path: string, mode: string)
    ensures ReadAs(ChecksumScript(path), ChecksumCommand(path)) && ReadAs(RemoveScript(path), RemoveCommand(path))
    ensures IsWord(mode) ==> ReadAs(WriteScript(path, mode), WriteCommand(path, mode))
  {
    ChecksumRendered(path);
    CommandReads(ChecksumCommand(path));
    RemoveRendered(path);
    CommandReads(RemoveCommand(path));
    if IsWord(mode) {
      WriteRendered(path, mode);
      CommandReads(WriteCommand(path, mode));
    }
  }
}
