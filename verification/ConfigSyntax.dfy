/** Parsed configurations, the token stream of one, and its printed form. */
module ConfigSyntax {
  import opened ConfigLexer

  /** A statement ended by a semicolon, or one that carries a block. */
  datatype Statement = Simple(tokens: seq<string>) | Block(tokens: seq<string>, child: seq<Statement>)

  type Config = seq<Statement>

  function Words(tokens: seq<string>): (r: seq<Token>)
    ensures |r| == |tokens|
    ensures forall i :: 0 <= i < |r| ==> r[i] == Word(tokens[i])
  {
    if tokens == [] then [] else [Word(tokens[0])] + Words(tokens[1..])
  }

  /** The grammar: a configuration is statements, and a statement is words followed by a semicolon
      or by a configuration in braces. */
  function Flatten(c: Config): seq<Token>
    decreases c, 0
  {
    if c == [] then [] else FlattenStatement(c[0]) + Flatten(c[1..])
  }

  function FlattenStatement(s: Statement): seq<Token>
    decreases s, 1
  {
    match s
    case Simple(tokens) => Words(tokens) + [Semi]
    case Block(tokens, child) => Words(tokens) + [Open] + Flatten(child) + [Close]
  }

  /** Every statement has at least one word. */
  predicate WellFormed(c: Config)
    decreases c, 0
  {
    c == [] || (WellFormedStatement(c[0]) && WellFormed(c[1..]))
  }

  predicate WellFormedStatement(s: Statement)
    decreases s, 1
  {
    s.tokens != [] && (s.Block? ==> WellFormed(s.child))
  }

  /** Every word is a word of the language. */
  predicate AllWords(c: Config)
    decreases c, 0
  {
    c == [] || (AllWordsStatement(c[0]) && AllWords(c[1..]))
  }

  predicate AllWordsStatement(s: Statement)
    decreases s, 1
  {
    (forall i :: 0 <= i < |s.tokens| ==> IsWord(s.tokens[i])) && (s.Block? ==> AllWords(s.child))
  }

  lemma {:induction false} WordsAppend(ws: seq<string>, w: string)
    ensures Words(ws + [w]) == Words(ws) + [Word(w)]
  {
  }

  lemma {:induction false} WordsLast(ws: seq<string>)
    requires ws != []
    ensures Words(ws[..|ws| - 1]) + [Word(ws[|ws| - 1])] == Words(ws)
  {
    WordsAppend(ws[..|ws| - 1], ws[|ws| - 1]);
    assert ws[..|ws| - 1] + [ws[|ws| - 1]] == ws;
  }

  lemma {:induction false} FlattenAppend(c: Config, s: Statement)
    ensures Flatten(c + [s]) == Flatten(c) + FlattenStatement(s)
    decreases |c|
  {
    var all := c + [s];
    if c == [] {
      assert all[0] == s && all[1..] == [];
    } else {
      FlattenAppend(c[1..], s);
      assert all[0] == c[0] && all[1..] == c[1..] + [s];
    }
  }

  lemma {:induction false} WellFormedAppend(c: Config, s: Statement)
    ensures WellFormed(c + [s]) == (WellFormed(c) && WellFormedStatement(s))
    decreases |c|
  {
    var all := c + [s];
    if c == [] {
      assert all[0] == s && all[1..] == [];
    } else {
      WellFormedAppend(c[1..], s);
      assert all[0] == c[0] && all[1..] == c[1..] + [s];
    }
  }

  // ---------------------------------------------------------------------------------------
  // Printing
  // ---------------------------------------------------------------------------------------

  function Indent(depth: nat): string {
    if depth == 0 then "" else Indent(depth - 1) + "  "
  }

  function Joined(tokens: seq<string>): string {
    if tokens == [] then ""
    else if |tokens| == 1 then tokens[0]
    else Joined(tokens[..|tokens| - 1]) + " " + tokens[|tokens| - 1]
  }

  function Print(c: Config, depth: nat): string
    decreases c, 0
  {
    if c == [] then "" else PrintStatement(c[0], depth) + Print(c[1..], depth)
  }

  function PrintStatement(s: Statement, depth: nat): string
    decreases s, 1
  {
    var head := Indent(depth) + Joined(s.tokens);
    match s
    case Simple(_) => head + ";\n"
    case Block(_, child) => head + " {\n" + Print(child, depth + 1) + Indent(depth) + "}\n"
  }

  // ---------------------------------------------------------------------------------------
  // Lexing what was printed
  // ---------------------------------------------------------------------------------------

  /** Between two tokens, with toks already read. */
  function Between(toks: seq<Token>): Cursor {
    Cursor(toks, InitialWhitespace, "")
  }

  lemma {:induction false} RunIndent(toks: seq<Token>, depth: nat)
    ensures Run(Between(toks), Indent(depth)) == Between(toks)
  {
    if depth > 0 {
      RunIndent(toks, depth - 1);
      RunAppend(Between(toks), Indent(depth - 1), "  ");
      RunSpaces(toks);
    }
  }

  lemma {:induction false} RunSpaces(toks: seq<Token>)
    ensures Run(Between(toks), "  ") == Between(toks)
  {
    assert "  "[1..] == " ";
    assert " "[1..] == "";
  }

  /** A character of punctuation or a space after a word completes it. */
  predicate CompletesWord(cur: Cursor, toks: seq<Token>, w: string) {
    cur == Between(toks + [Word(w)]) || cur == Cursor(toks, InWord, w)
  }

  lemma {:induction false} RunBareWord(toks: seq<Token>, value: string, rest: string)
    requires IsBareWord(value + rest) && value != ""
    ensures Run(Cursor(toks, InWord, value), rest) == Cursor(toks, InWord, value + rest)
    decreases |rest|
  {
    if rest == "" {
      assert value + rest == value;
    } else {
      assert value + [rest[0]] + rest[1..] == value + rest;
      assert (value + rest)[|value|] == rest[0];
      RunBareWord(toks, value + [rest[0]], rest[1..]);
    }
  }

  lemma {:induction false} RunQuotedWord(toks: seq<Token>, state: LexState, value: string, rest: string)
    requires state == SingleQuote || state == DoubleQuote
    requires IsQuoted(value + rest) && value != "" && rest != ""
    requires value[0] == if state == SingleQuote then '\'' else '"'
    ensures Run(Cursor(toks, state, value), rest) == Between(toks + [Word(value + rest)])
    decreases |rest|
  {
    var w := value + rest;
    assert value + [rest[0]] + rest[1..] == w;
    assert w[|value|] == rest[0];
    if |rest| == 1 {
      assert rest[1..] == "";
      assert value + [rest[0]] == w;
    } else {
      assert w[..|w| - 1][|value|] == rest[0];
      RunQuotedWord(toks, state, value + [rest[0]], rest[1..]);
    }
  }

  lemma {:induction false} RunWord(toks: seq<Token>, w: string)
    requires IsWord(w)
    ensures CompletesWord(Run(Between(toks), w), toks, w)
  {
    assert w == [w[0]] + w[1..] && "" + [w[0]] == [w[0]];
    if IsBareWord(w) {
      RunBareWord(toks, [w[0]], w[1..]);
    } else {
      assert w[..|w| - 1][0] == w[0];
      RunQuotedWord(toks, if w[0] == '\'' then SingleQuote else DoubleQuote, [w[0]], w[1..]);
    }
  }

  lemma {:induction false} FeedAfterWord(cur: Cursor, toks: seq<Token>, w: string)
    requires CompletesWord(cur, toks, w)
    ensures Feed(cur, ' ') == Between(toks + [Word(w)])
    ensures Feed(cur, ';') == Between(toks + [Word(w), Semi])
  {
    assert toks + [Word(w)] + [Semi] == toks + [Word(w), Semi];
  }

  /** Reading s between two tokens adds the tokens of more and ends between two tokens. */
  predicate Reads(s: string, more: seq<Token>) {
    Run(START, s) == Between(more)
  }

  lemma {:induction false} ReadsAppend(s: string, a: seq<Token>, t: string, b: seq<Token>)
    requires Reads(s, a) && Reads(t, b)
    ensures Reads(s + t, a + b)
  {
    RunAppend(START, s, t);
    RunKeeps(Between(a), t);
  }

  lemma {:induction false} ReadsEach(c: char)
    requires c == ' ' || c == '\n' || c == '{' || c == '}' || c == ';'
    ensures Reads([c], if c == '{' then [Open] else if c == '}' then [Close] else if c == ';' then [Semi] else [])
  {
    assert [c][1..] == "";
  }

  lemma {:induction false} ReadsWordEnd(head: string, before: seq<Token>, w: string)
    requires CompletesWord(Run(START, head), before, w)
    ensures Reads(head + " ", before + [Word(w)])
    ensures Reads(head + ";", before + [Word(w)] + [Semi])
  {
    FeedAfterWord(Run(START, head), before, w);
    RunStep(START, head, ';');
    RunStep(START, head, ' ');
    assert before + [Word(w), Semi] == before + [Word(w)] + [Semi];
  }

  lemma {:induction false} RunThenWord(head: string, toks: seq<Token>, w: string)
    requires Reads(head, toks) && IsWord(w)
    ensures CompletesWord(Run(START, head + w), toks, w)
  {
    RunAppend(START, head, w);
    RunWord(toks, w);
  }

  /** The words of a printed statement: the last one is complete or waits for a delimiter. */
  lemma {:induction false} RunHead(indent: string, tokens: seq<string>)
    requires Reads(indent, [])
    requires tokens != [] && forall i :: 0 <= i < |tokens| ==> IsWord(tokens[i])
    ensures var n := |tokens| - 1; CompletesWord(Run(START, indent + Joined(tokens)), Words(tokens[..n]), tokens[n])
    decreases |tokens|
  {
    hide Run;
    var n := |tokens| - 1;
    var before := tokens[..n];
    if n == 0 {
      RunThenWord(indent, [], tokens[0]);
    } else {
      RunHead(indent, before);
      ReadsWordEnd(indent + Joined(before), Words(before[..n - 1]), before[n - 1]);
      WordsLast(before);
      RunThenWord(indent + Joined(before) + " ", Words(before), tokens[n]);
      assert indent + Joined(before) + " " + tokens[n] == indent + Joined(tokens);
    }
  }

  lemma {:induction false} ReadsHead(tokens: seq<string>, depth: nat)
    requires tokens != [] && forall i :: 0 <= i < |tokens| ==> IsWord(tokens[i])
    ensures Reads(Indent(depth) + Joined(tokens) + " ", Words(tokens))
    ensures Reads(Indent(depth) + Joined(tokens) + ";", Words(tokens) + [Semi])
  {
    var n := |tokens| - 1;
    RunIndent([], depth);
    RunHead(Indent(depth), tokens);
    ReadsWordEnd(Indent(depth) + Joined(tokens), Words(tokens[..n]), tokens[n]);
    WordsLast(tokens);
  }

  /** Reading a printed configuration adds exactly its token stream, at every depth. */
  lemma {:induction false} ReadsPrint(c: Config, depth: nat)
    requires WellFormed(c) && AllWords(c)
    ensures Reads(Print(c, depth), Flatten(c))
    decreases c, 0
  {
    if c != [] {
      ReadsPrintStatement(c[0], depth);
      ReadsPrint(c[1..], depth);
      ReadsAppend(PrintStatement(c[0], depth), FlattenStatement(c[0]), Print(c[1..], depth), Flatten(c[1..]));
    }
  }

  lemma {:induction false} ReadsBlock(head: string, words: seq<Token>, body: string, inner: seq<Token>, depth: nat)
    requires Reads(head + " ", words) && Reads(body, inner)
    ensures Reads(head + " {\n" + body + Indent(depth) + "}\n", words + [Open] + inner + [Close])
  {
    ReadsEach('{');
    ReadsEach('}');
    ReadsEach('\n');
    ReadsAppend("{", [Open], "\n", []);
    ReadsAppend("}", [Close], "\n", []);
    ReadsAppend(head + " ", words, "{\n", [Open]);
    ReadsAppend(head + " " + "{\n", words + [Open], body, inner);
    RunIndent([], depth);
    ReadsAppend(head + " " + "{\n" + body, words + [Open] + inner, Indent(depth), []);
    ReadsAppend(head + " " + "{\n" + body + Indent(depth), words + [Open] + inner, "}\n", [Close]);
    assert head + " " + "{\n" == head + " {\n";
  }

  lemma {:induction false} ReadsPrintStatement(s: Statement, depth: nat)
    requires WellFormedStatement(s) && AllWordsStatement(s)
    ensures Reads(PrintStatement(s, depth), FlattenStatement(s))
    decreases s, 1
  {
    var head := Indent(depth) + Joined(s.tokens);
    ReadsHead(s.tokens, depth);
    match s
    case Simple(tokens) =>
      ReadsEach('\n');
      ReadsAppend(head + ";", Words(tokens) + [Semi], "\n", []);
      assert head + ";" + "\n" == PrintStatement(s, depth);
    case Block(tokens, child) =>
      ReadsPrint(child, depth + 1);
      ReadsBlock(head, Words(tokens), Print(child, depth + 1), Flatten(child), depth);
  }

  /** The lexer undoes the printer. */
  lemma {:induction false} TokensOfPrint(c: Config, depth: nat)
    requires WellFormed(c) && AllWords(c)
    ensures Tokens(Print(c, depth)) == Flatten(c) + [EndOfInput]
  {
    ReadsPrint(c, depth);
    TokensAreRun(Print(c, depth));
  }
}
