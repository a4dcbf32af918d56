/** The parser's loop as a machine over tokens, and the language and trees it accepts. */
module ConfigMachine {
  import opened ConfigLexer
  import opened ConfigSyntax

  /** One open block: its finished statements, and the words of the statement being read. */
  datatype Frame = Frame(done: seq<Statement>, words: seq<string>)

  /** Running: the open blocks, outermost first, and the type of the last token. An empty stack is
      the state after one closing brace too many: the parser has popped the root, and its next use
      of the stack has no meaning, which is the outcome Undefined. */
  datatype Machine =
    | Running(frames: seq<Frame>, last: TokenType)
    | Accepted(config: Config)
    | Rejected
    | Undefined

  const INITIAL := Running([Frame([], [])], Start)

  function AddWord(frames: seq<Frame>, w: string): seq<Frame>
    requires frames != []
  {
    var n := |frames| - 1;
    frames[..n] + [Frame(frames[n].done, frames[n].words + [w])]
  }

  function EndStatement(frames: seq<Frame>): seq<Frame>
    requires frames != []
  {
    var n := |frames| - 1;
    frames[..n] + [Frame(frames[n].done + [Simple(frames[n].words)], [])]
  }

  function CloseBlock(frames: seq<Frame>): seq<Frame>
    requires frames != []
  {
    var n := |frames| - 1;
    if n == 0 then []
    else frames[..n - 1] + [Frame(frames[n - 1].done + [Block(frames[n - 1].words, frames[n].done)], [])]
  }

  /** One turn of the parse loop. A semicolon or an opening brace after a popped root is refused by
      the last-token check, so only a word or a closing brace reaches the empty stack. */
  function Step(m: Machine, t: Token): Machine {
    if !m.Running? then m
    else match t
      case Word(w) => if m.frames == [] then Undefined else Running(AddWord(m.frames, w), Normal)
      case Semi =>
        if m.last != Normal then Rejected
        else if m.frames == [] then Undefined
        else Running(EndStatement(m.frames), StatementEnd)
      case Open =>
        if m.last != Normal then Rejected
        else if m.frames == [] then Undefined
        else Running(m.frames + [Frame([], [])], StartBlock)
      case Close =>
        if m.last != StatementEnd && m.last != StartBlock && m.last != EndBlock then Rejected
        else if m.frames == [] then Undefined
        else Running(CloseBlock(m.frames), EndBlock)
      case EndOfInput =>
        if m.last != StatementEnd && m.last != EndBlock && m.last != Start then Rejected
        else if |m.frames| != 1 then Rejected
        else Accepted(m.frames[0].done)
      case BadQuote => Rejected
  }

  function Steps(m: Machine, ts: seq<Token>): Machine
    decreases |ts|
  {
    if ts == [] then m else Steps(Step(m, ts[0]), ts[1..])
  }

  function Parse(text: string): Machine {
    Steps(INITIAL, Tokens(text))
  }

  lemma {:induction false} StepsAppend(m: Machine, a: seq<Token>, b: seq<Token>)
    ensures Steps(m, a + b) == Steps(Steps(m, a), b)
    decreases |a|
  {
    if a == [] {
      assert a + b == b;
    } else {
      assert (a + b)[0] == a[0] && (a + b)[1..] == a[1..] + b;
      StepsAppend(Step(m, a[0]), a[1..], b);
    }
  }

  lemma {:induction false} StepsOne(m: Machine, a: seq<Token>, t: Token)
    ensures Steps(m, a + [t]) == Step(Steps(m, a), t)
  {
    StepsAppend(m, a, [t]);
    assert Steps(Steps(m, a), [t]) == Steps(Step(Steps(m, a), t), [t][1..]);
  }

  lemma {:induction false} StepsStay(m: Machine, ts: seq<Token>)
    requires !m.Running?
    ensures Steps(m, ts) == m
    decreases |ts|
  {
    if ts != [] { StepsStay(m, ts[1..]); }
  }

  // ---------------------------------------------------------------------------------------
  // What has been read is exactly what the open blocks hold
  // ---------------------------------------------------------------------------------------

  /** The tokens that the open blocks stand for. */
  function Spine(frames: seq<Frame>): seq<Token>
    decreases |frames|, 0
  {
    if frames == [] then []
    else
      var n := |frames| - 1;
      Under(frames[..n]) + FrameTokens(frames[n])
  }

  function FrameTokens(f: Frame): seq<Token> {
    Flatten(f.done) + Words(f.words)
  }

  /** What has been read before a block whose enclosing blocks are frames. */
  function Under(frames: seq<Frame>): seq<Token>
    decreases |frames|, 1
  {
    if frames == [] then [] else Spine(frames) + [Open]
  }

  lemma {:induction false} SpinePush(frames: seq<Frame>, f: Frame)
    ensures Spine(frames + [f]) == Under(frames) + FrameTokens(f)
  {
    assert (frames + [f])[..|frames|] == frames;
  }

  /** Every finished statement is well formed, and every block but the innermost one is waiting for
      a child, so it has a statement being read. */
  predicate GoodFrames(frames: seq<Frame>) {
    && (forall i :: 0 <= i < |frames| ==> WellFormed(frames[i].done))
    && (forall i :: 0 <= i < |frames| - 1 ==> frames[i].words != [])
  }

  predicate GoodLast(frames: seq<Frame>, last: TokenType) {
    && frames != []
    && (last == Normal <==> frames[|frames| - 1].words != [])
    && last in {Start, Normal, StartBlock, EndBlock, StatementEnd}
    && (last == Start ==> frames == [Frame([], [])])
    && (last == StartBlock ==> |frames| > 1)
    && (last == EndBlock || last == StatementEnd ==> frames[|frames| - 1].done != [])
  }

  /** One closing brace too many after a whole, non-empty configuration. */
  ghost predicate Overclosed(ts: seq<Token>) {
    exists c: Config :: c != [] && WellFormed(c) && ts == Flatten(c) + [Close]
  }

  ghost predicate Invariant(m: Machine, read: seq<Token>) {
    m.Running? ==>
      if m.frames == [] then m.last == EndBlock && Overclosed(read)
      else GoodFrames(m.frames) && GoodLast(m.frames, m.last) && Spine(m.frames) == read
  }

  lemma {:induction false} InvariantInitially()
    ensures Invariant(INITIAL, [])
  {
    assert Spine([Frame([], [])]) == [];
  }

  lemma {:induction false} FrameWord(f: Frame, w: string)
    ensures FrameTokens(Frame(f.done, f.words + [w])) == FrameTokens(f) + [Word(w)]
  {
    WordsAppend(f.words, w);
  }

  lemma {:induction false} FrameSemi(f: Frame)
    requires WellFormed(f.done) && f.words != []
    ensures FrameTokens(Frame(f.done + [Simple(f.words)], [])) == FrameTokens(f) + [Semi]
    ensures WellFormed(f.done + [Simple(f.words)])
  {
    FlattenAppend(f.done, Simple(f.words));
    WellFormedAppend(f.done, Simple(f.words));
  }

  lemma {:induction false} BlockTokens(ws: seq<string>, child: Config)
    ensures FlattenStatement(Block(ws, child)) == Words(ws) + [Open] + Flatten(child) + [Close]
    ensures WellFormedStatement(Block(ws, child)) == (ws != [] && WellFormed(child))
  {
  }

  lemma {:induction false} FrameClose(f: Frame, child: Config)
    requires WellFormed(f.done) && f.words != [] && WellFormed(child)
    ensures FrameTokens(Frame(f.done + [Block(f.words, child)], [])) ==
      FrameTokens(f) + [Open] + Flatten(child) + [Close]
    ensures WellFormed(f.done + [Block(f.words, child)])
  {
    hide Flatten, FlattenStatement, WellFormed, WellFormedStatement, Words;
    BlockTokens(f.words, child);
    FlattenAppend(f.done, Block(f.words, child));
    WellFormedAppend(f.done, Block(f.words, child));
  }

  lemma {:induction false} WordKeeps(frames: seq<Frame>, last: TokenType, w: string)
    requires GoodFrames(frames) && GoodLast(frames, last)
    ensures GoodFrames(AddWord(frames, w)) && GoodLast(AddWord(frames, w), Normal)
    ensures Spine(AddWord(frames, w)) == Spine(frames) + [Word(w)]
  {
    hide Spine, Flatten, Words, WellFormed, FrameTokens;
    var n := |frames| - 1;
    assert frames == frames[..n] + [frames[n]];
    FrameWord(frames[n], w);
    SpinePush(frames[..n], frames[n]);
    SpinePush(frames[..n], Frame(frames[n].done, frames[n].words + [w]));
  }

  lemma {:induction false} SemiKeeps(frames: seq<Frame>)
    requires GoodFrames(frames) && GoodLast(frames, Normal)
    ensures GoodFrames(EndStatement(frames)) && GoodLast(EndStatement(frames), StatementEnd)
    ensures Spine(EndStatement(frames)) == Spine(frames) + [Semi]
  {
    hide Spine, Flatten, Words, WellFormed, FrameTokens;
    var n := |frames| - 1;
    assert frames == frames[..n] + [frames[n]];
    FrameSemi(frames[n]);
    SpinePush(frames[..n], frames[n]);
    SpinePush(frames[..n], Frame(frames[n].done + [Simple(frames[n].words)], []));
  }

  lemma {:induction false} OpenKeeps(frames: seq<Frame>)
    requires GoodFrames(frames) && GoodLast(frames, Normal)
    ensures GoodFrames(frames + [Frame([], [])]) && GoodLast(frames + [Frame([], [])], StartBlock)
    ensures Spine(frames + [Frame([], [])]) == Spine(frames) + [Open]
  {
    assert (frames + [Frame([], [])])[..|frames|] == frames;
  }

  lemma {:induction false} Regroup(a: seq<Token>, b: seq<Token>, c: seq<Token>)
    ensures a + b + [Open] + c + [Close] == a + (b + [Open] + c + [Close])
  {
  }

  lemma {:induction false} CloseSpine(rest: seq<Frame>, under: Frame, top: Frame)
    requires WellFormed(under.done) && under.words != [] && WellFormed(top.done) && top.words == []
    ensures var closed := Frame(under.done + [Block(under.words, top.done)], []);
            WellFormed(closed.done) && Spine(rest + [closed]) == Spine(rest + [under] + [top]) + [Close]
  {
    assert FrameTokens(top) == Flatten(top.done);
    hide *;
    var closed := Frame(under.done + [Block(under.words, top.done)], []);
    FrameClose(under, top.done);
    SpinePush(rest, closed);
    Regroup(Under(rest), FrameTokens(under), Flatten(top.done));
    assert Spine(rest + [under] + [top]) == Under(rest) + FrameTokens(under) + [Open] + Flatten(top.done) by {
      SpinePush(rest + [under], top);
      UnderSome(rest + [under]);
      SpinePush(rest, under);
    }
  }

  lemma {:induction false} UnderSome(frames: seq<Frame>)
    requires frames != []
    ensures Under(frames) == Spine(frames) + [Open]
  {
  }

  lemma {:induction false} CloseKeeps(frames: seq<Frame>, last: TokenType)
    requires GoodFrames(frames) && GoodLast(frames, last) && last != Normal && |frames| > 1
    ensures GoodFrames(CloseBlock(frames)) && GoodLast(CloseBlock(frames), EndBlock)
    ensures Spine(CloseBlock(frames)) == Spine(frames) + [Close]
  {
    hide Spine, WellFormed;
    var n := |frames| - 1;
    assert frames == frames[..n - 1] + [frames[n - 1]] + [frames[n]];
    CloseSpine(frames[..n - 1], frames[n - 1], frames[n]);
  }

  lemma {:induction false} RootClosed(frames: seq<Frame>, last: TokenType)
    requires GoodFrames(frames) && GoodLast(frames, last) && |frames| == 1
    requires last == EndBlock || last == StatementEnd
    ensures Overclosed(Spine(frames) + [Close])
  {
    assert Spine(frames) == Flatten(frames[0].done);
  }

  lemma {:induction false} StepKeeps(m: Machine, read: seq<Token>, t: Token)
    requires Invariant(m, read)
    ensures Invariant(Step(m, t), read + [t])
  {
    if m.Running? && m.frames != [] && Step(m, t).Running? {
      hide Spine, WellFormed, Overclosed;
      match t
      case Word(w) => WordKeeps(m.frames, m.last, w);
      case Semi => SemiKeeps(m.frames);
      case Open => OpenKeeps(m.frames);
      case Close => if |m.frames| > 1 { CloseKeeps(m.frames, m.last); } else { RootClosed(m.frames, m.last); }
      case EndOfInput =>
      case BadQuote =>
    }
  }

  lemma {:induction false} StepsKeep(ts: seq<Token>)
    ensures Invariant(Steps(INITIAL, ts), ts)
    decreases |ts|
  {
    hide Invariant;
    if ts == [] {
      InvariantInitially();
    } else {
      var n := |ts| - 1;
      assert ts == ts[..n] + [ts[n]];
      StepsKeep(ts[..n]);
      StepsOne(INITIAL, ts[..n], ts[n]);
      StepKeeps(Steps(INITIAL, ts[..n]), ts[..n], ts[n]);
    }
  }

  // ---------------------------------------------------------------------------------------
  // Every token stream of the grammar is accepted, and rebuilds its tree
  // ---------------------------------------------------------------------------------------

  function LastAfter(c: Config, last: TokenType): TokenType {
    if c == [] then last else if c[|c| - 1].Simple? then StatementEnd else EndBlock
  }

  predicate AtStatement(last: TokenType) {
    last in {Start, StatementEnd, StartBlock, EndBlock}
  }

  lemma {:induction false} StepsWords(rest: seq<Frame>, f: Frame, last: TokenType, ws: seq<string>)
    ensures Steps(Running(rest + [f], last), Words(ws)) ==
      Running(rest + [Frame(f.done, f.words + ws)], if ws == [] then last else Normal)
    decreases |ws|
  {
    if ws == [] {
      assert f.words + ws == f.words;
    } else {
      var next := Frame(f.done, f.words + [ws[0]]);
      assert (rest + [f])[..|rest|] == rest;
      assert Words(ws)[1..] == Words(ws[1..]);
      StepsWords(rest, next, Normal, ws[1..]);
      assert f.words + [ws[0]] + ws[1..] == f.words + ws;
    }
  }

  lemma {:induction false} StepsFlatten(rest: seq<Frame>, done: Config, last: TokenType, c: Config)
    requires WellFormed(c) && AtStatement(last)
    ensures Steps(Running(rest + [Frame(done, [])], last), Flatten(c)) ==
      Running(rest + [Frame(done + c, [])], LastAfter(c, last))
    decreases c, 0
  {
    if c == [] {
      assert done + c == done;
    } else {
      var s := c[0];
      var after := LastAfter([s], last);
      var m := Running(rest + [Frame(done, [])], last);
      assert Flatten(c) == FlattenStatement(s) + Flatten(c[1..]) && WellFormedStatement(s) && WellFormed(c[1..]);
      hide Flatten, Steps, Words, WellFormed;
      StepsStatement(rest, done, last, s);
      StepsFlatten(rest, done + [s], after, c[1..]);
      StepsAppend(m, FlattenStatement(s), Flatten(c[1..]));
      assert done + [s] + c[1..] == done + c;
      assert LastAfter(c[1..], after) == LastAfter(c, last);
    }
  }

  lemma {:induction false} StepClose(rest: seq<Frame>, f: Frame, child: Config, last: TokenType)
    requires last == StartBlock || last == StatementEnd || last == EndBlock
    ensures Step(Running(rest + [f] + [Frame(child, [])], last), Close) ==
      Running(rest + [Frame(f.done + [Block(f.words, child)], [])], EndBlock)
  {
    assert (rest + [f] + [Frame(child, [])])[..|rest|] == rest;
  }

  lemma {:induction false} StepSemi(rest: seq<Frame>, f: Frame)
    ensures Step(Running(rest + [f], Normal), Semi) ==
      Running(rest + [Frame(f.done + [Simple(f.words)], [])], StatementEnd)
  {
    assert (rest + [f])[..|rest|] == rest;
  }

  lemma {:induction false} StepsStatement(rest: seq<Frame>, done: Config, last: TokenType, s: Statement)
    requires WellFormedStatement(s) && AtStatement(last)
    ensures Steps(Running(rest + [Frame(done, [])], last), FlattenStatement(s)) ==
      Running(rest + [Frame(done + [s], [])], LastAfter([s], last))
    decreases s, 1
  {
    var m := Running(rest + [Frame(done, [])], last);
    var f := Frame(done, s.tokens);
    assert [] + s.tokens == s.tokens;
    match s
    case Simple(tokens) =>
      hide Steps, Step, Words;
      StepsWords(rest, Frame(done, []), last, tokens);
      StepsOne(m, Words(tokens), Semi);
      StepSemi(rest, f);
    case Block(tokens, child) =>
      BlockTokens(tokens, child);
      assert Step(Running(rest + [f], Normal), Open) == Running(rest + [f] + [Frame([], [])], StartBlock);
      hide Steps, Step, Words, Flatten, FlattenStatement, WellFormed, WellFormedStatement;
      StepsWords(rest, Frame(done, []), last, tokens);
      StepsOne(m, Words(tokens), Open);
      StepsFlatten(rest + [f], [], StartBlock, child);
      StepsAppend(m, Words(tokens) + [Open], Flatten(child));
      assert [] + child == child;
      StepsOne(m, Words(tokens) + [Open] + Flatten(child), Close);
      StepClose(rest, f, child, LastAfter(child, StartBlock));
  }

  // ---------------------------------------------------------------------------------------
  // The parser accepts exactly the grammar
  // ---------------------------------------------------------------------------------------

  predicate NoEnd(ts: seq<Token>) {
    forall i :: 0 <= i < |ts| ==> !ts[i].EndOfInput? && !ts[i].BadQuote?
  }

  lemma {:induction false} NoEndNoAccept(m: Machine, ts: seq<Token>)
    requires NoEnd(ts) && !m.Accepted?
    ensures !Steps(m, ts).Accepted?
    decreases |ts|
  {
    if ts != [] { NoEndNoAccept(Step(m, ts[0]), ts[1..]); }
  }

  lemma {:induction false} GrammarAccepted(c: Config)
    requires WellFormed(c)
    ensures Steps(INITIAL, Flatten(c) + [EndOfInput]) == Accepted(c)
  {
    StepsFlatten([], [], Start, c);
    hide Steps, Flatten;
    StepsOne(INITIAL, Flatten(c), EndOfInput);
    assert [] + c == c && [] + [Frame([], [])] == [Frame([], [])];
  }

  lemma {:induction false} OneFrame(frames: seq<Frame>, last: TokenType)
    requires GoodFrames(frames) && GoodLast(frames, last) && |frames| == 1 && last != Normal
    ensures WellFormed(frames[0].done) && Spine(frames) == Flatten(frames[0].done)
  {
    assert frames[..0] == [];
  }

  lemma {:induction false} AcceptedIsGrammar(ts: seq<Token>, c: Config)
    requires NoEnd(ts) && Steps(INITIAL, ts + [EndOfInput]) == Accepted(c)
    ensures WellFormed(c) && ts == Flatten(c)
  {
    var m := Steps(INITIAL, ts);
    StepsKeep(ts);
    StepsOne(INITIAL, ts, EndOfInput);
    NoEndNoAccept(INITIAL, ts);
    hide Steps, Flatten, WellFormed, Spine, GoodFrames, GoodLast, NoEnd;
    assert m.Running? && |m.frames| == 1 && m.last != Normal && c == m.frames[0].done;
    OneFrame(m.frames, m.last);
  }

  /** The loop accepts a stream exactly when it is the token stream of a well-formed
      configuration, and the tree it has built is that configuration. */
  lemma {:induction false} AcceptsExactly(ts: seq<Token>, c: Config)
    requires NoEnd(ts)
    ensures Steps(INITIAL, ts + [EndOfInput]) == Accepted(c) <==> WellFormed(c) && ts == Flatten(c)
  {
    hide *;
    if WellFormed(c) && ts == Flatten(c) { GrammarAccepted(c); }
    if Steps(INITIAL, ts + [EndOfInput]) == Accepted(c) { AcceptedIsGrammar(ts, c); }
  }

  /** No two configurations have the same token stream. */
  lemma {:induction false} FlattenInjective(c: Config, d: Config)
    requires WellFormed(c) && WellFormed(d) && Flatten(c) == Flatten(d)
    ensures c == d
  {
    StepsFlatten([], [], Start, c);
    StepsFlatten([], [], Start, d);
    assert [] + c == c && [] + d == d;
    hide *;
    assert ([] + [Frame(c, [])])[0] == Frame(c, []) && ([] + [Frame(d, [])])[0] == Frame(d, []);
  }

  lemma {:induction false} TokensClosed(text: string) returns (inner: seq<Token>, last: Token)
    ensures Tokens(text) == inner + [last] && AllInner(inner) && NoEnd(inner)
    ensures last == EndOfInput || last == BadQuote
  {
    inner, last := TokensShape(text);
    forall i | 0 <= i < |inner| ensures !inner[i].EndOfInput? && !inner[i].BadQuote? {
      assert IsInner(inner[i]);
    }
  }

  /** Parsing text yields c exactly when the tokens of text are those of c. */
  lemma {:induction false} ParseExact(text: string, c: Config)
    ensures Parse(text) == Accepted(c) <==> WellFormed(c) && Tokens(text) == Flatten(c) + [EndOfInput]
  {
    hide Tokens, WellFormed, Flatten;
    var inner, last := TokensClosed(text);
    if last == EndOfInput {
      AcceptsExactly(inner, c);
      assert Tokens(text) == Flatten(c) + [EndOfInput] <==> inner == Flatten(c) by {
        if Tokens(text) == Flatten(c) + [EndOfInput] { assert inner == Tokens(text)[..|inner|]; }
      }
    } else {
      StepsOne(INITIAL, inner, last);
      NoEndNoAccept(INITIAL, inner);
      assert Tokens(text)[|Tokens(text)| - 1] == BadQuote;
    }
  }

  /** Every word of an accepted configuration is a word of the language. */
  lemma {:induction false} FlattenAllWords(c: Config)
    requires AllInner(Flatten(c))
    ensures AllWords(c)
    decreases c, 0
  {
    if c != [] {
      var s, rest := FlattenStatement(c[0]), Flatten(c[1..]);
      assert forall i :: 0 <= i < |s| ==> s[i] == Flatten(c)[i];
      assert forall i :: 0 <= i < |rest| ==> rest[i] == Flatten(c)[|s| + i];
      FlattenAllWordsStatement(c[0]);
      FlattenAllWords(c[1..]);
    }
  }

  lemma {:induction false} FlattenAllWordsStatement(s: Statement)
    requires AllInner(FlattenStatement(s))
    ensures AllWordsStatement(s)
    decreases s, 1
  {
    var ts := FlattenStatement(s);
    forall i | 0 <= i < |s.tokens| ensures IsWord(s.tokens[i]) {
      assert ts[i] == Word(s.tokens[i]);
    }
    if s.Block? {
      var inner := Flatten(s.child);
      assert forall i :: 0 <= i < |inner| ==> inner[i] == ts[|s.tokens| + 1 + i];
      FlattenAllWords(s.child);
    }
  }

  // ---------------------------------------------------------------------------------------
  // Parser and printer
  // ---------------------------------------------------------------------------------------

  /** Printing at any depth and parsing rebuilds exactly the configuration. */
  lemma {:induction false} ParsePrint(c: Config, depth: nat)
    requires WellFormed(c) && AllWords(c)
    ensures Parse(Print(c, depth)) == Accepted(c)
  {
    TokensOfPrint(c, depth);
    ParseExact(Print(c, depth), c);
  }

  /** Every accepted configuration is well formed, and its words are words of the language. */
  lemma {:induction false} AcceptedWords(text: string)
    requires Parse(text).Accepted?
    ensures WellFormed(Parse(text).config) && AllWords(Parse(text).config)
  {
    var c := Parse(text).config;
    ParseExact(text, c);
    var inner, last := TokensClosed(text);
    assert inner == Tokens(text)[..|inner|] == Flatten(c);
    FlattenAllWords(c);
  }

  /** For every accepted input, printing and parsing again is the identity on the parsed tree. */
  lemma {:induction false} ReparsePrinted(text: string, depth: nat)
    requires Parse(text).Accepted?
    ensures Parse(Print(Parse(text).config, depth)) == Parse(text)
  {
    AcceptedWords(text);
    ParsePrint(Parse(text).config, depth);
  }

  /** Gaps of any length and content between two tokens give the same tree or the same failure. */
  lemma {:induction false} ParseIgnoresGaps(p: string, g: string, h: string, s: string)
    requires IsOutside(p) && IsGap(g) && IsGap(h)
    ensures Parse(p + g + s) == Parse(p + h + s)
  {
    GapsInterchange(p, g, h, s);
  }

  /** So does filler put where there was none. */
  lemma {:induction false} ParseIgnoresFiller(p: string, g: string, s: string)
    requires IsOutside(p) && IsFiller(g)
    requires ConfigLexer.Run(START, p).state == InWord ==> IsGap(g) && s != "" && EndsWord(s[0])
    ensures Parse(p + g + s) == Parse(p + s)
  {
    FillerInserts(p, g, s);
  }

  // ---------------------------------------------------------------------------------------
  // Where the parser's stack underflows
  // ---------------------------------------------------------------------------------------

  /** ts is a whole, non-empty configuration, then a closing brace, then a word or another closing
      brace. */
  ghost predicate UsesPoppedRoot(ts: seq<Token>, c: Config) {
    var n := |Flatten(c)|;
    && c != [] && WellFormed(c) && n + 1 < |ts| && ts[..n] == Flatten(c) && ts[n] == Close
    && (ts[n + 1].Word? || ts[n + 1] == Close)
  }

  lemma {:induction false} UndefinedStart(ts: seq<Token>) returns (k: nat)
    requires Steps(INITIAL, ts) == Undefined
    ensures k < |ts| && Steps(INITIAL, ts[..k]).Running? && Steps(INITIAL, ts[..k + 1]) == Undefined
    decreases |ts|
  {
    var n := |ts| - 1;
    assert ts != [] && ts == ts[..n] + [ts[n]];
    StepsOne(INITIAL, ts[..n], ts[n]);
    if Steps(INITIAL, ts[..n]) == Undefined {
      k := UndefinedStart(ts[..n]);
      assert ts[..n][..k] == ts[..k] && ts[..n][..k + 1] == ts[..k + 1];
    } else {
      k := n;
      assert ts[..k + 1] == ts;
    }
  }

  lemma {:induction false} UndefinedUsesPoppedRoot(ts: seq<Token>) returns (c: Config)
    requires Steps(INITIAL, ts) == Undefined
    ensures UsesPoppedRoot(ts, c)
  {
    var k := UndefinedStart(ts);
    StepsKeep(ts[..k]);
    assert ts[..k + 1] == ts[..k] + [ts[k]];
    StepsOne(INITIAL, ts[..k], ts[k]);
    assert Overclosed(ts[..k]) && (ts[k].Word? || ts[k] == Close);
    hide Steps, Flatten, WellFormed, Spine;
    c :| c != [] && WellFormed(c) && ts[..k] == Flatten(c) + [Close];
    assert |Flatten(c)| + 1 == k;
    assert ts[k - 1] == ts[..k][k - 1] && ts[..k - 1] == ts[..k][..k - 1];
  }

  /** The parser uses its stack after popping the root exactly on such streams. */
  lemma {:induction false} UndefinedExactly(ts: seq<Token>)
    ensures Steps(INITIAL, ts) == Undefined <==> exists c: Config :: UsesPoppedRoot(ts, c)
  {
    hide UsesPoppedRoot, Steps;
    if Steps(INITIAL, ts) == Undefined {
      var c := UndefinedUsesPoppedRoot(ts);
    }
    if c: Config :| UsesPoppedRoot(ts, c) {
      PoppedRootUndefined(ts, c);
    }
  }

  lemma {:induction false} PoppedRootUndefined(ts: seq<Token>, c: Config)
    requires UsesPoppedRoot(ts, c)
    ensures Steps(INITIAL, ts) == Undefined
  {
    var n := |Flatten(c)|;
    StepsFlatten([], [], Start, c);
    hide Steps, Flatten, WellFormed;
    assert [] + c == c;
    assert ts == Flatten(c) + [ts[n]] + [ts[n + 1]] + ts[n + 2..];
    StepsOne(INITIAL, Flatten(c), Close);
    StepsOne(INITIAL, Flatten(c) + [Close], ts[n + 1]);
    StepsAppend(INITIAL, Flatten(c) + [Close] + [ts[n + 1]], ts[n + 2..]);
    StepsStay(Undefined, ts[n + 2..]);
  }

  /** Blocks opened minus blocks closed. */
  function Net(ts: seq<Token>): int
    decreases |ts|
  {
    if ts == [] then 0
    else
      var n := |ts| - 1;
      Net(ts[..n]) + if ts[n] == Open then 1 else if ts[n] == Close then -1 else 0
  }

  lemma {:induction false} NetAppend(a: seq<Token>, b: seq<Token>)
    ensures Net(a + b) == Net(a) + Net(b)
    decreases |b|
  {
    if b == [] {
      assert a + b == a;
    } else {
      var n := |b| - 1;
      assert (a + b)[..|a| + n] == a + b[..n];
      NetAppend(a, b[..n]);
    }
  }

  lemma {:induction false} NetWords(ws: seq<string>)
    ensures Net(Words(ws)) == 0
    decreases |ws|
  {
    if ws != [] {
      NetAppend([Word(ws[0])], Words(ws[1..]));
      NetWords(ws[1..]);
    }
  }

  lemma {:induction false} NetFlatten(c: Config)
    ensures Net(Flatten(c)) == 0
    decreases c, 0
  {
    if c != [] {
      NetStatement(c[0]);
      NetFlatten(c[1..]);
      NetAppend(FlattenStatement(c[0]), Flatten(c[1..]));
    }
  }

  lemma {:induction false} NetStatement(s: Statement)
    ensures Net(FlattenStatement(s)) == 0
    decreases s, 1
  {
    var words := Words(s.tokens);
    NetWords(s.tokens);
    match s
    case Simple(_) =>
      NetAppend(words, [Semi]);
    case Block(_, child) =>
      NetFlatten(child);
      hide Words, Flatten;
      NetAppend(words, [Open]);
      NetAppend(words + [Open], Flatten(child));
      NetAppend(words + [Open] + Flatten(child), [Close]);
  }

  /** An input in which no prefix closes more blocks than it opened never reaches that. */
  lemma {:induction false} BalancedDefined(ts: seq<Token>)
    requires forall k :: 0 <= k <= |ts| ==> Net(ts[..k]) >= 0
    ensures Steps(INITIAL, ts) != Undefined
  {
    UndefinedExactly(ts);
    if c: Config :| UsesPoppedRoot(ts, c) {
      var n := |Flatten(c)|;
      assert ts[..n + 1] == Flatten(c) + [Close];
      NetFlatten(c);
      NetAppend(Flatten(c), [Close]);
    }
  }

  // ---------------------------------------------------------------------------------------
  // Finished statements are final
  // ---------------------------------------------------------------------------------------

  /** Every block of a that is still open in b has kept its finished statements, in order. */
  predicate Extends(a: seq<Frame>, b: seq<Frame>) {
    forall i :: 0 <= i < |a| && i < |b| ==> a[i].done <= b[i].done
  }

  /** No turn of the loop changes a finished statement, at any level. */
  lemma {:induction false} StepExtends(m: Machine, t: Token)
    requires m.Running? && Step(m, t).Running?
    ensures Extends(m.frames, Step(m, t).frames)
    ensures |Step(m, t).frames| == |m.frames| + (if t == Open then 1 else if t == Close then -1 else 0)
  {
  }

  // ---------------------------------------------------------------------------------------
  // Parsing on top of a configuration
  // ---------------------------------------------------------------------------------------

  function OnFrames(c: Config, frames: seq<Frame>): seq<Frame> {
    if frames == [] then [] else [Frame(c + frames[0].done, frames[0].words)] + frames[1..]
  }

  /** The machine with the statements of c before its own. */
  function On(c: Config, m: Machine): Machine {
    match m
    case Running(frames, last) => Running(OnFrames(c, frames), last)
    case Accepted(d) => Accepted(c + d)
    case _ => m
  }

  lemma {:induction false} AddWordOn(c: Config, frames: seq<Frame>, w: string)
    requires frames != []
    ensures AddWord(OnFrames(c, frames), w) == OnFrames(c, AddWord(frames, w))
  {
  }

  lemma {:induction false} EndStatementOn(c: Config, frames: seq<Frame>)
    requires frames != []
    ensures EndStatement(OnFrames(c, frames)) == OnFrames(c, EndStatement(frames))
  {
    var s := Simple(frames[0].words);
    assert c + frames[0].done + [s] == c + (frames[0].done + [s]);
  }

  lemma {:induction false} CloseBlockOn(c: Config, frames: seq<Frame>)
    requires frames != []
    ensures CloseBlock(OnFrames(c, frames)) == OnFrames(c, CloseBlock(frames))
  {
    if |frames| > 1 {
      var b := Block(frames[0].words, frames[1].done);
      assert c + frames[0].done + [b] == c + (frames[0].done + [b]);
    }
  }

  lemma {:induction false} StepOn(c: Config, m: Machine, t: Token)
    ensures Step(On(c, m), t) == On(c, Step(m, t))
  {
    if m.Running? && m.frames != [] {
      match t
      case Word(w) => AddWordOn(c, m.frames, w);
      case Semi => EndStatementOn(c, m.frames);
      case Close => CloseBlockOn(c, m.frames);
      case _ =>
      hide AddWord, EndStatement, CloseBlock;
    }
  }

  /** Statements that are there before change nothing but the result, which they precede. */
  lemma {:induction false} StepsOn(c: Config, m: Machine, ts: seq<Token>)
    ensures Steps(On(c, m), ts) == On(c, Steps(m, ts))
    decreases |ts|
  {
    if ts != [] {
      StepOn(c, m, ts[0]);
      hide Step, On;
      StepsOn(c, Step(m, ts[0]), ts[1..]);
    }
  }
}
