/** The lexer of the configuration language: one token at a time, as the parser calls it,
    and the same lexer read as a character machine that runs over the whole input. */
module ConfigLexer {

  datatype TokenType = Start | Normal | StartBlock | EndBlock | Comment | StatementEnd | Eof | Error

  datatype LexState = InitialWhitespace | SingleQuote | DoubleQuote | InComment | InWord

  /** What one call of the lexer returns, and the input it leaves behind. */
  datatype Lexed = Lexed(kind: TokenType, value: string, rest: string)

  predicate IsSpace(c: char) {
    c == ' ' || c == '\t' || c == '\n' || c == '\r'
  }

  /** The characters that end a bare word. A carriage return is not among them. */
  predicate EndsWord(c: char) {
    c == ' ' || c == '\t' || c == '\n' || c == ';' || c == '{' || c == '}'
  }

  predicate IsNewline(c: char) {
    c == '\n' || c == '\r'
  }

  /** What the lexer does on one character: return a token, leaving the character unread if unget
      is set, or read on in another state with another value. */
  datatype Action = Return(kind: TokenType, value: string, unget: bool) | ReadOn(state: LexState, value: string)

  function Decide(state: LexState, value: string, c: char): Action {
    match state
    case InitialWhitespace =>
      if c == '{' then Return(StartBlock, [c], false)
      else if c == '}' then Return(EndBlock, [c], false)
      else if c == '#' then ReadOn(InComment, [c])
      else if c == '"' then ReadOn(DoubleQuote, [c])
      else if c == '\'' then ReadOn(SingleQuote, [c])
      else if c == ';' then Return(StatementEnd, [c], false)
      else if IsSpace(c) then ReadOn(InitialWhitespace, value)
      else ReadOn(InWord, value + [c])
    case SingleQuote =>
      if c == '\'' then Return(Normal, value + [c], false) else ReadOn(SingleQuote, value + [c])
    case DoubleQuote =>
      if c == '"' then Return(Normal, value + [c], false) else ReadOn(DoubleQuote, value + [c])
    case InComment =>
      if IsNewline(c) then Return(Comment, value, false) else ReadOn(InComment, value + [c])
    case InWord =>
      if EndsWord(c) then Return(Normal, value, true) else ReadOn(InWord, value + [c])
  }

  /** The lexer's loop from a given state: value holds what was read of the current token. */
  function LexFrom(state: LexState, value: string, s: string): (t: Lexed)
    ensures |t.rest| <= |s|
    ensures state.InitialWhitespace? && t.kind != Eof && t.kind != Error ==> |t.rest| < |s|
    decreases |s|
  {
    if s == "" then
      Lexed(if state.SingleQuote? || state.DoubleQuote? then Error else Eof, value, s)
    else
      match Decide(state, value, s[0])
      case Return(kind, v, unget) => Lexed(kind, v, if unget then s else s[1..])
      case ReadOn(next, v) => LexFrom(next, v, s[1..])
  }

  /** One call of the lexer with an empty value, as the parser makes it. */
  function Lex(s: string): (t: Lexed)
    ensures t.kind != Eof && t.kind != Error ==> |t.rest| < |s|
  {
    LexFrom(InitialWhitespace, "", s)
  }

  // ---------------------------------------------------------------------------------------
  // What a token is, said without the machine
  // ---------------------------------------------------------------------------------------

  predicate IsQuote(c: char) {
    c == '"' || c == '\''
  }

  predicate IsBareWord(w: string) {
    && w != ""
    && !IsSpace(w[0]) && !EndsWord(w[0]) && w[0] != '#' && !IsQuote(w[0])
    && forall i :: 0 <= i < |w| ==> !EndsWord(w[i])
  }

  predicate IsOpenQuoted(w: string) {
    w != "" && IsQuote(w[0]) && forall i :: 1 <= i < |w| ==> w[i] != w[0]
  }

  predicate IsQuoted(w: string) {
    |w| >= 2 && w[|w| - 1] == w[0] && IsOpenQuoted(w[..|w| - 1])
  }

  /** The words of the language. */
  predicate IsWord(w: string) {
    IsBareWord(w) || IsQuoted(w)
  }

  predicate IsCommentText(w: string) {
    w != "" && w[0] == '#' && forall i :: 0 <= i < |w| ==> !IsNewline(w[i])
  }

  function SkipSpace(s: string): (r: string)
    ensures r == "" || !IsSpace(r[0])
  {
    if s == "" || !IsSpace(s[0]) then s else SkipSpace(s[1..])
  }

  /** The position of the first line end in s, or |s|. */
  function LineEnd(s: string): (k: nat)
    ensures k <= |s|
    ensures forall i :: 0 <= i < k ==> !IsNewline(s[i])
    ensures k < |s| ==> IsNewline(s[k])
  {
    if s == "" || IsNewline(s[0]) then 0 else 1 + LineEnd(s[1..])
  }

  /** t is the first token of s: the leading space is skipped, and what follows is a brace, a
      semicolon, a comment up to its line end, a quoted word, or a bare word up to (and without)
      its delimiter. Nothing else is a token; a bare word or a comment cut off by the end of the
      input is the end of the input, and an unclosed quote is an error. */
  predicate IsFirstToken(s: string, t: Lexed) {
    IsTokenOf(SkipSpace(s), t)
  }

  predicate IsTokenOf(body: string, t: Lexed) {
    match t.kind
    case Start => false
    case StartBlock => t.value == "{" && body == "{" + t.rest
    case EndBlock => t.value == "}" && body == "}" + t.rest
    case StatementEnd => t.value == ";" && body == ";" + t.rest
    case Normal =>
      && body == t.value + t.rest
      && (IsQuoted(t.value) || (IsBareWord(t.value) && t.rest != "" && EndsWord(t.rest[0])))
    case Comment =>
      && IsCommentText(t.value) && |body| == |t.value| + 1 + |t.rest|
      && IsNewline(body[|t.value|]) && body == t.value + [body[|t.value|]] + t.rest
    case Error => t.rest == "" && t.value == body && IsOpenQuoted(body)
    case Eof => t.rest == "" && t.value == body && (body == "" || IsCommentText(body) || IsBareWord(body))
  }

  /** The states other than the initial one, with what has been read in them. */
  predicate Reading(state: LexState, value: string) {
    match state
    case InitialWhitespace => value == ""
    case SingleQuote => IsOpenQuoted(value) && value[0] == '\''
    case DoubleQuote => IsOpenQuoted(value) && value[0] == '"'
    case InComment => IsCommentText(value)
    case InWord => IsBareWord(value)
  }

  lemma {:induction false} ReturnsToken(state: LexState, value: string, c: char, rest: string)
    requires Reading(state, value) && Decide(state, value, c).Return?
    ensures var a := Decide(state, value, c);
            IsTokenOf(value + [c] + rest, Lexed(a.kind, a.value, if a.unget then [c] + rest else rest))
  {
    assert (value + [c])[..|value|] == value;
    assert (value + [c] + rest)[|value|] == c;
    assert value == "" ==> value + [c] == [c];
    assert value + ([c] + rest) == value + [c] + rest;
  }

  lemma {:induction false} ReadingFindsToken(state: LexState, value: string, s: string)
    requires Reading(state, value) && (state == InitialWhitespace ==> s != "" && !IsSpace(s[0]))
    ensures IsTokenOf(value + s, LexFrom(state, value, s))
    decreases |s|
  {
    if s == "" {
      assert value + s == value;
    } else {
      var c, rest := s[0], s[1..];
      assert s == [c] + rest;
      assert value + s == (value + [c]) + rest;
      if Decide(state, value, c).Return? {
        ReturnsToken(state, value, c, rest);
      } else {
        assert value == "" ==> value + [c] == [c];
        ReadingFindsToken(Decide(state, value, c).state, value + [c], rest);
      }
    }
  }

  lemma {:induction false} LexAfterSpace(s: string)
    ensures Lex(s) == Lex(SkipSpace(s))
    decreases |s|
  {
    if s != "" && IsSpace(s[0]) {
      LexAfterSpace(s[1..]);
      assert Lex(s) == Lex(s[1..]) && SkipSpace(s) == SkipSpace(s[1..]);
    } else {
      assert SkipSpace(s) == s;
    }
  }

  /** The lexer returns the first token of its input... */
  lemma {:induction false} LexIsFirstToken(s: string)
    ensures IsFirstToken(s, Lex(s))
  {
    var body := SkipSpace(s);
    LexAfterSpace(s);
    if body != "" {
      ReadingFindsToken(InitialWhitespace, "", body);
      assert "" + body == body;
    }
  }

  lemma {:induction false} Overlap(v: string, q: string, w: string, r: string)
    requires v + q == w + r && |v| < |w|
    ensures q != "" && w[|v|] == q[0] && w[..|v|] == v
  {
    assert (v + q)[|v|] == q[0] && (w + r)[|v|] == w[|v|];
    assert v == (v + q)[..|v|] == (w + r)[..|v|] == w[..|v|];
  }

  lemma {:induction false} WordEndsOnce(v: string, q: string, w: string, r: string)
    requires v + q == w + r
    requires IsQuoted(v) || (IsBareWord(v) && (q == "" || EndsWord(q[0])))
    requires IsWord(w)
    ensures |w| <= |v|
  {
    if |v| < |w| {
      Overlap(v, q, w, r);
    }
  }

  lemma {:induction false} SameWord(v: string, q: string, w: string, r: string)
    requires v + q == w + r
    requires IsQuoted(v) || (IsBareWord(v) && (q == "" || EndsWord(q[0])))
    requires IsQuoted(w) || (IsBareWord(w) && (r == "" || EndsWord(r[0])))
    ensures v == w && q == r
  {
    WordEndsOnce(v, q, w, r);
    WordEndsOnce(w, r, v, q);
    assert v == (v + q)[..|v|] == (w + r)[..|w|] == w;
    assert q == (v + q)[|v|..] == r;
  }

  lemma {:induction false} WordIsNothingElse(body: string, v: string, rest: string)
    requires body == v + rest
    requires IsQuoted(v) || (IsBareWord(v) && rest != "" && EndsWord(rest[0]))
    ensures body != "" && body[0] == v[0] && body[0] !in "{};#"
    ensures !IsOpenQuoted(body) && !IsBareWord(body)
  {
    if IsQuoted(v) { assert body[|v| - 1] == body[0]; } else { assert body[|v|] == rest[0]; }
  }

  /** The kind of the first token is decided by where the space ends. */
  ghost function KindOf(body: string): TokenType {
    if body == "" then Eof
    else if body[0] == '{' then StartBlock
    else if body[0] == '}' then EndBlock
    else if body[0] == ';' then StatementEnd
    else if body[0] == '#' then (if IsCommentText(body) then Eof else Comment)
    else if IsQuote(body[0]) then (if IsOpenQuoted(body) then Error else Normal)
    else if IsBareWord(body) then Eof else Normal
  }

  lemma {:induction false} FirstTokenKind(body: string, t: Lexed)
    requires IsTokenOf(body, t)
    ensures t.kind == KindOf(body)
  {
    if t.kind == Normal {
      WordIsNothingElse(body, t.value, t.rest);
    } else if t.kind == Comment {
      CommentIsNothingElse(body, t);
    }
  }

  lemma {:induction false} CommentIsNothingElse(body: string, t: Lexed)
    requires t.kind == Comment && IsCommentText(t.value) && |body| == |t.value| + 1 + |t.rest|
    requires IsNewline(body[|t.value|]) && body == t.value + [body[|t.value|]] + t.rest
    ensures body[0] == '#' && |t.value| == LineEnd(body) && !IsCommentText(body)
  {
    assert body[0] == t.value[0];
    assert forall i :: 0 <= i < |t.value| ==> body[i] == t.value[i];
  }

  lemma {:induction false} SameKindSameToken(body: string, t: Lexed, u: Lexed)
    requires IsTokenOf(body, t) && IsTokenOf(body, u) && t.kind == u.kind
    ensures t == u
  {
    match t.kind
    case Normal =>
      SameWord(t.value, t.rest, u.value, u.rest);
    case Comment =>
      CommentIsNothingElse(body, t);
      CommentIsNothingElse(body, u);
      assert t.value == body[..|t.value|] && u.value == body[..|u.value|];
      assert t.rest == body[|t.value| + 1..] && u.rest == body[|u.value| + 1..];
    case StartBlock => assert body[1..] == t.rest == u.rest;
    case EndBlock => assert body[1..] == t.rest == u.rest;
    case StatementEnd => assert body[1..] == t.rest == u.rest;
    case Eof =>
    case Error =>
  }

  /** ...and there is only one first token. */
  lemma {:induction false} FirstTokenUnique(s: string, t: Lexed, u: Lexed)
    requires IsFirstToken(s, t) && IsFirstToken(s, u)
    ensures t == u
  {
    FirstTokenKind(SkipSpace(s), t);
    FirstTokenKind(SkipSpace(s), u);
    SameKindSameToken(SkipSpace(s), t, u);
  }

  /** A word followed by a delimiter lexes to itself: quoted words need none. */
  lemma {:induction false} WordRelexes(w: string, rest: string)
    requires IsWord(w)
    requires IsBareWord(w) ==> rest != "" && EndsWord(rest[0])
    ensures Lex(w + rest) == Lexed(Normal, w, rest)
  {
    assert SkipSpace(w + rest) == w + rest by {
      assert (w + rest)[0] == w[0];
      if IsQuoted(w) { assert w[..|w| - 1][0] == w[0]; }
    }
    LexIsFirstToken(w + rest);
    FirstTokenUnique(w + rest, Lex(w + rest), Lexed(Normal, w, rest));
  }

  // ---------------------------------------------------------------------------------------
  // The whole input
  // ---------------------------------------------------------------------------------------

  /** The tokens the parser acts on: comments are skipped, and the stream is closed by the end of
      the input or by an unclosed quote. */
  datatype Token = Word(text: string) | Open | Close | Semi | EndOfInput | BadQuote

  function AsToken(kind: TokenType, value: string): seq<Token> {
    match kind
    case Normal => [Word(value)]
    case StartBlock => [Open]
    case EndBlock => [Close]
    case StatementEnd => [Semi]
    case Eof => [EndOfInput]
    case Error => [BadQuote]
    case Comment => []
    case Start => []
  }

  /** The lexer called until it reports the end or an error. */
  function Tokens(s: string): seq<Token>
    decreases |s|
  {
    var t := Lex(s);
    AsToken(t.kind, t.value) + if t.kind == Eof || t.kind == Error then [] else Tokens(t.rest)
  }

  /** The character machine: the tokens completed so far and the token being read. */
  datatype Cursor = Cursor(toks: seq<Token>, state: LexState, value: string)

  const START := Cursor([], InitialWhitespace, "")

  function FeedInitial(toks: seq<Token>, c: char): Cursor {
    match Decide(InitialWhitespace, "", c)
    case ReadOn(state, value) => Cursor(toks, state, value)
    case Return(kind, value, _) => Cursor(toks + AsToken(kind, value), InitialWhitespace, "")
  }

  /** One character: the delimiter pushed back after a bare word is read again at once. */
  function Feed(cur: Cursor, c: char): Cursor {
    match Decide(cur.state, cur.value, c)
    case ReadOn(state, value) => Cursor(cur.toks, state, value)
    case Return(kind, value, unget) =>
      var toks := cur.toks + AsToken(kind, value);
      if unget then FeedInitial(toks, c) else Cursor(toks, InitialWhitespace, "")
  }

  function Run(cur: Cursor, s: string): Cursor
    decreases |s|
  {
    if s == "" then cur else Run(Feed(cur, s[0]), s[1..])
  }

  function AtEnd(state: LexState): Token {
    if state.SingleQuote? || state.DoubleQuote? then BadQuote else EndOfInput
  }

  lemma {:induction false} RunOne(cur: Cursor, s: string)
    requires s != ""
    ensures Run(cur, s) == Run(Feed(cur, s[0]), s[1..])
  {
  }

  lemma {:induction false} RunAppend(cur: Cursor, p: string, q: string)
    ensures Run(cur, p + q) == Run(Run(cur, p), q)
    decreases |p|
  {
    if p == "" {
      assert p + q == q;
    } else {
      assert (p + q)[1..] == p[1..] + q;
      RunAppend(Feed(cur, p[0]), p[1..], q);
    }
  }

  lemma {:induction false} RunStep(cur: Cursor, p: string, c: char)
    ensures Run(cur, p + [c]) == Feed(Run(cur, p), c)
  {
    RunAppend(cur, p, [c]);
    assert Run(Feed(Run(cur, p), c), "") == Feed(Run(cur, p), c);
    assert [c][1..] == "";
  }

  /** Tokens already completed never change the rest of a run. */
  lemma {:induction false} RunKeeps(cur: Cursor, s: string)
    ensures var bare := Run(cur.(toks := []), s); Run(cur, s) == bare.(toks := cur.toks + bare.toks)
    decreases |s|
  {
    if s != "" {
      var next := Feed(cur, s[0]);
      var bare := Feed(cur.(toks := []), s[0]);
      assert next == bare.(toks := cur.toks + bare.toks);
      RunKeeps(next, s[1..]);
      RunKeeps(bare, s[1..]);
      assert next.(toks := []) == bare.(toks := []);
    }
  }

  /** The tokens of a whole input that has been read up to cur. */
  function Finish(cur: Cursor): seq<Token> {
    cur.toks + [AtEnd(cur.state)]
  }

  /** The tokens of an input whose first token is t. */
  function Continue(t: Lexed): seq<Token> {
    AsToken(t.kind, t.value) + if t.kind == Eof || t.kind == Error then [] else Finish(Run(START, t.rest))
  }

  lemma {:induction false} Resume(toks: seq<Token>, s: string)
    ensures Finish(Run(Cursor(toks, InitialWhitespace, ""), s)) == toks + Finish(Run(START, s))
  {
    RunKeeps(Cursor(toks, InitialWhitespace, ""), s);
  }

  /** One run of the machine is one call of the lexer followed by a run from the start. */
  lemma {:induction false} RunLexes(state: LexState, value: string, s: string)
    ensures Finish(Run(Cursor([], state, value), s)) == Continue(LexFrom(state, value, s))
    decreases |s|
  {
    if s != "" {
      match Decide(state, value, s[0])
      case ReadOn(next, v) =>
        RunLexes(next, v, s[1..]);
      case Return(kind, v, unget) =>
        assert [] + AsToken(kind, v) == AsToken(kind, v);
        var rest := if unget then s else s[1..];
        Resume(AsToken(kind, v), rest);
        assert Run(Cursor([], state, value), s) == Run(Cursor(AsToken(kind, v), InitialWhitespace, ""), rest);
    }
  }

  /** Calling the lexer until it stops and running the machine give the same tokens. */
  lemma {:induction false} TokensAreRun(s: string)
    ensures Tokens(s) == Finish(Run(START, s))
    decreases |s|
  {
    RunLexes(InitialWhitespace, "", s);
    var t := Lex(s);
    if t.kind != Eof && t.kind != Error { TokensAreRun(t.rest); }
  }

  predicate IsInner(t: Token) {
    t.Open? || t.Close? || t.Semi? || (t.Word? && IsWord(t.text))
  }

  lemma {:induction false} DecideReads(state: LexState, value: string, c: char)
    requires Reading(state, value)
    ensures match Decide(state, value, c)
            case ReadOn(next, v) => Reading(next, v)
            case Return(kind, v, unget) =>
              && kind in {StartBlock, EndBlock, StatementEnd, Comment, Normal}
              && (kind == Normal ==> IsWord(v)) && (unget ==> state == InWord && EndsWord(c))
  {
    assert (value + [c])[..|value|] == value;
  }

  predicate AllInner(toks: seq<Token>) {
    forall i :: 0 <= i < |toks| ==> IsInner(toks[i])
  }

  lemma {:induction false} FeedInitialEmitsWords(toks: seq<Token>, c: char)
    requires AllInner(toks)
    ensures Reading(FeedInitial(toks, c).state, FeedInitial(toks, c).value) && AllInner(FeedInitial(toks, c).toks)
  {
    DecideReads(InitialWhitespace, "", c);
  }

  lemma {:induction false} FeedEmitsWords(cur: Cursor, c: char)
    requires Reading(cur.state, cur.value) && AllInner(cur.toks)
    ensures Reading(Feed(cur, c).state, Feed(cur, c).value) && AllInner(Feed(cur, c).toks)
  {
    DecideReads(cur.state, cur.value, c);
    match Decide(cur.state, cur.value, c)
    case ReadOn(_, _) =>
    case Return(kind, value, unget) =>
      var toks := cur.toks + AsToken(kind, value);
      assert AllInner(toks);
      if unget { FeedInitialEmitsWords(toks, c); }
  }

  lemma {:induction false} RunEmitsWords(cur: Cursor, s: string)
    requires Reading(cur.state, cur.value) && AllInner(cur.toks)
    ensures Reading(Run(cur, s).state, Run(cur, s).value) && AllInner(Run(cur, s).toks)
    decreases |s|
  {
    if s != "" {
      FeedEmitsWords(cur, s[0]);
      RunEmitsWords(Feed(cur, s[0]), s[1..]);
    }
  }

  /** A token stream is words, braces and semicolons, then exactly one closing token; every word
      in it is a word of the language. */
  lemma {:induction false} TokensShape(s: string) returns (inner: seq<Token>, last: Token)
    ensures Tokens(s) == inner + [last]
    ensures last == EndOfInput || last == BadQuote
    ensures AllInner(inner)
  {
    TokensAreRun(s);
    RunEmitsWords(START, s);
    inner, last := Run(START, s).toks, AtEnd(Run(START, s).state);
  }

  // ---------------------------------------------------------------------------------------
  // Gaps between tokens
  // ---------------------------------------------------------------------------------------

  /** Space and line-ended comments. */
  predicate IsFiller(g: string)
    decreases |g|
  {
    || g == ""
    || (IsSpace(g[0]) && IsFiller(g[1..]))
    || (g[0] == '#' && LineEnd(g) < |g| && IsFiller(g[LineEnd(g) + 1..]))
  }

  /** A filler that also ends a bare word. */
  predicate IsGap(g: string) {
    g != "" && (g[0] == ' ' || g[0] == '\t' || g[0] == '\n') && IsFiller(g)
  }

  lemma {:induction false} RunComment(cur: Cursor, s: string)
    requires cur.state == InComment
    requires forall i :: 0 <= i < |s| ==> !IsNewline(s[i])
    ensures Run(cur, s) == cur.(value := cur.value + s)
    decreases |s|
  {
    if s == "" {
      assert cur.value + s == cur.value;
    } else {
      RunComment(Feed(cur, s[0]), s[1..]);
      assert cur.value + [s[0]] + s[1..] == cur.value + s;
    }
  }

  lemma {:induction false} FeedNewline(toks: seq<Token>, value: string, c: char)
    requires IsNewline(c)
    ensures Feed(Cursor(toks, InComment, value), c) == Cursor(toks, InitialWhitespace, "")
  {
    assert toks + [] == toks;
  }

  lemma {:induction false} RunCommentLine(toks: seq<Token>, body: string, end: char, rest: string)
    requires IsNewline(end) && forall i :: 0 <= i < |body| ==> !IsNewline(body[i])
    ensures Run(Cursor(toks, InComment, "#"), body + [end] + rest) == Run(Cursor(toks, InitialWhitespace, ""), rest)
  {
    var cur := Cursor(toks, InComment, "#");
    RunComment(cur, body);
    RunStep(cur, body, end);
    FeedNewline(toks, "#" + body, end);
    RunAppend(cur, body + [end], rest);
  }

  lemma {:induction false} RunWholeComment(toks: seq<Token>, g: string)
    requires g != "" && g[0] == '#' && LineEnd(g) < |g|
    ensures Run(Cursor(toks, InitialWhitespace, ""), g) == Run(Cursor(toks, InitialWhitespace, ""), g[LineEnd(g) + 1..])
  {
    hide Run;
    hide LineEnd;
    var k := LineEnd(g);
    RunOne(Cursor(toks, InitialWhitespace, ""), g);
    assert g[1..] == g[1..k] + [g[k]] + g[k + 1..];
    RunCommentLine(toks, g[1..k], g[k], g[k + 1..]);
  }

  lemma {:induction false} RunFiller(toks: seq<Token>, g: string)
    requires IsFiller(g)
    ensures Run(Cursor(toks, InitialWhitespace, ""), g) == Cursor(toks, InitialWhitespace, "")
    decreases |g|
  {
    if g == "" {
    } else if IsSpace(g[0]) {
      RunFiller(toks, g[1..]);
    } else {
      RunWholeComment(toks, g);
      RunFiller(toks, g[LineEnd(g) + 1..]);
    }
  }

  /** The input p stops between characters of no quoted word and of no comment. */
  predicate IsOutside(p: string) {
    Run(START, p).state == InitialWhitespace || Run(START, p).state == InWord
  }

  lemma {:induction false} FeedSpace(cur: Cursor, c: char)
    requires cur.state == InWord || (cur.state == InitialWhitespace && cur.value == "")
    requires c == ' ' || c == '\t' || c == '\n'
    ensures Feed(cur, c) == Feed(cur, ' ') == Cursor(Feed(cur, ' ').toks, InitialWhitespace, "")
  {
  }

  lemma {:induction false} RunGap(p: string, g: string)
    requires IsOutside(p) && IsGap(g)
    ensures Run(START, p + g) == Run(START, p + " ")
  {
    var cur := Run(START, p);
    RunEmitsWords(START, p);
    RunAppend(START, p, g);
    RunStep(START, p, ' ');
    FeedSpace(cur, g[0]);
    RunFiller(Feed(cur, ' ').toks, g[1..]);
  }

  lemma {:induction false} SameRunSameTokens(p: string, q: string, s: string)
    requires Run(START, p) == Run(START, q)
    ensures Tokens(p + s) == Tokens(q + s)
  {
    RunAppend(START, p, s);
    RunAppend(START, q, s);
    TokensAreRun(p + s);
    TokensAreRun(q + s);
  }

  /** Any gap may stand for any other gap. */
  lemma {:induction false} GapsInterchange(p: string, g: string, h: string, s: string)
    requires IsOutside(p) && IsGap(g) && IsGap(h)
    ensures Tokens(p + g + s) == Tokens(p + h + s)
  {
    RunGap(p, g);
    RunGap(p, h);
    SameRunSameTokens(p + g, p + h, s);
  }

  /** Filler may be put anywhere between two tokens, and a gap also where a delimiter ends a word. */
  lemma {:induction false} FillerInserts(p: string, g: string, s: string)
    requires IsOutside(p) && IsFiller(g)
    requires Run(START, p).state == InWord ==> IsGap(g) && s != "" && EndsWord(s[0])
    ensures Tokens(p + g + s) == Tokens(p + s)
  {
    var cur := Run(START, p);
    if cur.state == InitialWhitespace {
      RunEmitsWords(START, p);
      RunAppend(START, p, g);
      RunFiller(cur.toks, g);
      SameRunSameTokens(p + g, p, s);
    } else {
      RunGap(p, g);
      RunStep(START, p, ' ');
      RunAppend(START, p + g, s);
      RunAppend(START, p, s);
      assert Feed(Run(START, p + g), s[0]) == Feed(cur, s[0]);
      TokensAreRun(p + g + s);
      TokensAreRun(p + s);
    }
  }
}
