/** The parser as the program runs it: a stream that is read character by character, mutable
    configuration objects, and a stack of references into the tree that is being built. */
module ConfigParser {
  import opened ConfigLexer
  import opened ConfigSyntax
  import opened ConfigMachine

  /** An input stream: get at the end clears good, and unget steps back over what get returned. */
  class InputStream {
    const text: string
    var pos: nat
    var good: bool

    constructor (text: string)
      ensures Valid() && good && Rest() == text
    {
      this.text := text;
      pos, good := 0, true;
    }

    ghost predicate Valid()
      reads this
    {
      pos <= |text| && (!good ==> pos == |text|)
    }

    ghost function Rest(): string
      reads this
      requires Valid()
    {
      text[pos..]
    }

    method Get() returns (c: char)
      requires Valid() && good
      modifies this
      ensures Valid()
      ensures old(Rest()) == "" ==> !good && Rest() == ""
      ensures old(Rest()) != "" ==> good && pos > 0 && text[pos - 1] == c && old(Rest()) == [c] + Rest()
    {
      if pos < |text| {
        c := text[pos];
        pos := pos + 1;
      } else {
        c := '\0';
        good := false;
      }
    }

    method Unget()
      requires Valid() && good && pos > 0
      modifies this
      ensures Valid() && good && Rest() == [text[old(pos) - 1]] + old(Rest())
    {
      pos := pos - 1;
    }
  }

  /** One token. The value is the token's text, and the stream is left where the token ends. */
  method ParseToken(input: InputStream) returns (kind: TokenType, value: string)
    requires input.Valid()
    modifies input
    ensures input.Valid()
    ensures Lexed(kind, value, input.Rest()) == Lex(old(input.Rest()))
    ensures IsFirstToken(old(input.Rest()), Lexed(kind, value, input.Rest()))
  {
    LexIsFirstToken(input.Rest());
    hide IsFirstToken;
    var state := InitialWhitespace;
    value := "";
    while input.good
      invariant input.Valid()
      invariant LexFrom(state, value, input.Rest()) == Lex(old(input.Rest()))
      decreases |input.Rest()|
    {
      ghost var s := input.Rest();
      var c := input.Get();
      if !input.good {
        break;
      }
      assert s[0] == c && s[1..] == input.Rest();
      match state
      case InitialWhitespace =>
        if c == '{' {
          value := [c];
          return StartBlock, value;
        } else if c == '}' {
          value := [c];
          return EndBlock, value;
        } else if c == '#' {
          value, state := [c], InComment;
        } else if c == '"' {
          value, state := [c], DoubleQuote;
        } else if c == '\'' {
          value, state := [c], SingleQuote;
        } else if c == ';' {
          value := [c];
          return StatementEnd, value;
        } else if c != ' ' && c != '\t' && c != '\n' && c != '\r' {
          value, state := value + [c], InWord;
        }
      case SingleQuote =>
        value := value + [c];
        if c == '\'' {
          return Normal, value;
        }
      case DoubleQuote =>
        value := value + [c];
        if c == '"' {
          return Normal, value;
        }
      case InComment =>
        if c == '\n' || c == '\r' {
          return Comment, value;
        }
        value := value + [c];
      case InWord =>
        if c == ' ' || c == '\t' || c == '\n' || c == ';' || c == '{' || c == '}' {
          input.Unget();
          return Normal, value;
        }
        value := value + [c];
    }
    if state == SingleQuote || state == DoubleQuote {
      return Error, value;
    }
    return Eof, value;
  }

  class NginxConfigStatement {
    var tokens: seq<string>
    var childBlock: NginxConfig?

    constructor ()
      ensures tokens == [] && childBlock == null
    {
      tokens, childBlock := [], null;
    }

    method ToString(depth: nat, ghost shape: Shape) returns (r: string)
      requires shape.obj == this && MatchesOne(shape)
      ensures r == PrintStatement(TreeOne(shape), depth)
      decreases shape, 1
    {
      assert allocated(ObjectsOne(shape));
      hide Indent, Joined, Print, Tree, Objects;
      r := AppendIndent("", depth);
      r := AppendTokens(r);
      ghost var head := Indent(depth) + Joined(shape.tokens);
      assert MatchesOne(shape) && r == head;
      if childBlock != null {
        r := r + " {\n";
        var inner := childBlock.ToString(depth + 1, shape.stmts);
        r := r + inner;
        r := AppendIndent(r, depth);
        assert r == head + " {\n" + Print(Tree(shape.stmts), depth + 1) + Indent(depth);
        LineEnded(r, "}");
        r := r + "}";
      } else {
        LineEnded(head, ";");
        r := r + ";";
      }
      r := r + "\n";
    }

    method AppendIndent(s: string, depth: nat) returns (r: string)
      ensures r == s + Indent(depth)
    {
      r := s;
      for i := 0 to depth
        invariant r == s + Indent(i)
      {
        r := r + "  ";
      }
    }

    method AppendTokens(s: string) returns (r: string)
      ensures r == s + Joined(tokens)
    {
      r := s;
      for i := 0 to |tokens|
        invariant r == s + Joined(tokens[..i])
      {
        assert tokens[..i + 1][..i] == tokens[..i];
        if i != 0 {
          r := r + " ";
        }
        r := r + tokens[i];
        assert i != 0 ==> Joined(tokens[..i + 1]) == Joined(tokens[..i]) + " " + tokens[i];
      }
      assert tokens[..|tokens|] == tokens;
    }
  }

  lemma {:induction false} LineEnded(s: string, last: string)
    ensures s + last + "\n" == s + (last + "\n")
  {
  }

  class NginxConfig {
    var statements: seq<NginxConfigStatement>

    constructor ()
      ensures statements == []
    {
      statements := [];
    }

    /** The printed form of the tree that this object holds. */
    method ToString(depth: nat, ghost shape: seq<Shape>) returns (r: string)
      requires Holds(this, shape)
      ensures r == Print(Tree(shape), depth)
      decreases shape, 0
    {
      r := "";
      for i := 0 to |statements|
        invariant Holds(this, shape)
        invariant r == Print(Tree(shape[..i]), depth)
      {
        assert allocated(Objects(shape));
        MatchesAt(shape, i);
        var s := statements[i].ToString(depth, shape[i]);
        r := r + s;
        assert shape[..i + 1] == shape[..i] + [shape[i]];
        TreeAppend(shape[..i], shape[i]);
        PrintAppend(Tree(shape[..i]), TreeOne(shape[i]), depth);
      }
      assert shape[..|statements|] == shape;
    }
  }

  lemma {:induction false} PrintAppend(c: Config, s: Statement, depth: nat)
    ensures Print(c + [s], depth) == Print(c, depth) + PrintStatement(s, depth)
    decreases |c|
  {
    var all := c + [s];
    if c == [] {
      assert all[0] == s && all[1..] == [];
    } else {
      PrintAppend(c[1..], s, depth);
      assert all[0] == c[0] && all[1..] == c[1..] + [s];
    }
  }

  // ---------------------------------------------------------------------------------------
  // The tree that objects hold
  // ---------------------------------------------------------------------------------------

  /** A statement object with what it and the objects below it hold. */
  datatype Shape =
    | Leaf(obj: NginxConfigStatement, tokens: seq<string>)
    | Branch(obj: NginxConfigStatement, tokens: seq<string>, block: NginxConfig, stmts: seq<Shape>)

  ghost function TreeOne(s: Shape): Statement
    decreases s, 1
  {
    match s
    case Leaf(_, tokens) => Simple(tokens)
    case Branch(_, tokens, _, stmts) => Block(tokens, Tree(stmts))
  }

  ghost function Tree(ss: seq<Shape>): Config
    decreases ss, 0
  {
    if ss == [] then [] else [TreeOne(ss[0])] + Tree(ss[1..])
  }

  ghost function ObjectsOne(s: Shape): set<object>
    decreases s, 1
  {
    match s
    case Leaf(obj, _) => {obj}
    case Branch(obj, _, block, stmts) => {obj, block} + Objects(stmts)
  }

  ghost function Objects(ss: seq<Shape>): set<object>
    decreases ss, 0
  {
    if ss == [] then {} else ObjectsOne(ss[0]) + Objects(ss[1..])
  }

  ghost function Refs(ss: seq<Shape>): (r: seq<NginxConfigStatement>)
    ensures |r| == |ss|
    ensures forall i :: 0 <= i < |r| ==> r[i] == ss[i].obj
  {
    if ss == [] then [] else [ss[0].obj] + Refs(ss[1..])
  }

  ghost predicate MatchesOne(s: Shape)
    reads ObjectsOne(s)
    decreases s, 1
  {
    match s
    case Leaf(obj, tokens) => obj.tokens == tokens && obj.childBlock == null
    case Branch(obj, tokens, block, stmts) =>
      obj.tokens == tokens && obj.childBlock == block && block.statements == Refs(stmts) && Matches(stmts)
  }

  ghost predicate Matches(ss: seq<Shape>)
    reads Objects(ss)
    decreases ss, 0
  {
    ss == [] || (MatchesOne(ss[0]) && Matches(ss[1..]))
  }

  /** The object config holds the statements of shape. */
  ghost predicate Holds(config: NginxConfig, shape: seq<Shape>)
    reads config, Objects(shape)
  {
    config.statements == Refs(shape) && Matches(shape)
  }

  lemma {:induction false} MatchesAt(ss: seq<Shape>, i: nat)
    requires i < |ss| && Matches(ss)
    ensures MatchesOne(ss[i])
    decreases i
  {
    if i > 0 { MatchesAt(ss[1..], i - 1); }
  }

  lemma {:induction false} TreeAppend(ss: seq<Shape>, s: Shape)
    ensures Tree(ss + [s]) == Tree(ss) + [TreeOne(s)]
    decreases |ss|
  {
    var all := ss + [s];
    if ss == [] {
      assert all[0] == s && all[1..] == [];
    } else {
      TreeAppend(ss[1..], s);
      assert all[0] == ss[0] && all[1..] == ss[1..] + [s];
    }
  }

  lemma {:induction false} ObjectsAppend(ss: seq<Shape>, s: Shape)
    ensures Objects(ss + [s]) == Objects(ss) + ObjectsOne(s)
    decreases |ss|
  {
    var all := ss + [s];
    if ss == [] {
      assert all[0] == s && all[1..] == [];
    } else {
      ObjectsAppend(ss[1..], s);
      assert all[0] == ss[0] && all[1..] == ss[1..] + [s];
    }
  }

  lemma {:induction false} MatchesAppend(ss: seq<Shape>, s: Shape)
    requires Matches(ss) && MatchesOne(s)
    ensures Matches(ss + [s])
    decreases |ss|
  {
    var all := ss + [s];
    if ss == [] {
      assert all[0] == s && all[1..] == [];
    } else {
      MatchesAppend(ss[1..], s);
      assert all[0] == ss[0] && all[1..] == ss[1..] + [s];
    }
  }

  // ---------------------------------------------------------------------------------------
  // The stack of open blocks
  // ---------------------------------------------------------------------------------------

  /** An open block: its finished statements, and the statement being read, if there is one. */
  datatype Level = Level(block: NginxConfig, done: seq<Shape>, current: NginxConfigStatement?, words: seq<string>)

  /** The open blocks, innermost on top. */
  datatype Levels = Bottom | Push(below: Levels, top: Level)

  ghost function LevelObjects(l: Level): set<object> {
    {l.block} + Objects(l.done) + if l.current == null then {} else {l.current}
  }

  ghost function StackObjects(levels: Levels): set<object> {
    match levels
    case Bottom => {}
    case Push(below, top) => StackObjects(below) + LevelObjects(top)
  }

  /** The open blocks and their current statements: what the parse loop may still write to. */
  ghost function OpenObjects(levels: Levels): set<object> {
    match levels
    case Bottom => {}
    case Push(below, top) => OpenObjects(below) + {top.block} + if top.current == null then {} else {top.current}
  }

  /** Of these, the innermost: what the next token may write to. */
  ghost function TopObjects(levels: Levels): set<object> {
    match levels
    case Bottom => {}
    case Push(_, top) => {top.block} + if top.current == null then {} else {top.current}
  }

  /** The block's statements are the finished ones and then the current one, whose child is child. */
  ghost predicate LevelHolds(l: Level, child: NginxConfig?)
    reads LevelObjects(l)
  {
    && l.block.statements == Refs(l.done) + (if l.current == null then [] else [l.current])
    && Matches(l.done)
    && l.block !in Objects(l.done)
    && (l.current == null ==> l.words == [] && child == null)
    && (l.current != null ==>
          && l.words != [] && l.current.tokens == l.words && l.current.childBlock == child
          && l.current !in Objects(l.done))
  }

  /** The stack is the rightmost spine of the tree: each block is the child of the last statement
      of the block below it, the innermost one has no child yet, and no object appears twice. */
  ghost predicate Spined(levels: Levels, child: NginxConfig?)
    reads StackObjects(levels)
  {
    match levels
    case Bottom => true
    case Push(below, top) =>
      LevelHolds(top, child) && LevelObjects(top) !! StackObjects(below) && Spined(below, top.block)
  }

  ghost function FrameOf(l: Level): Frame {
    Frame(Tree(l.done), l.words)
  }

  ghost function Frames(levels: Levels): seq<Frame> {
    match levels
    case Bottom => []
    case Push(below, top) => Frames(below) + [FrameOf(top)]
  }

  ghost function Blocks(levels: Levels): seq<NginxConfig> {
    match levels
    case Bottom => []
    case Push(below, top) => Blocks(below) + [top.block]
  }

  lemma {:induction false} EmptyShape()
    ensures Tree([]) == [] && Objects([]) == {} && Refs([]) == [] && Matches([])
  {
  }

  /** A word: the innermost block gets a new statement unless one is being read. */
  method AppendWord(stack: seq<NginxConfig>, last: TokenType, w: string, ghost levels: Levels)
    returns (ghost next: Levels)
    requires levels.Push? && Spined(levels, null) && stack == Blocks(levels)
    requires last == Normal <==> levels.top.words != []
    modifies levels.top.block, levels.top.current
    ensures Spined(next, null) && stack == Blocks(next)
    ensures next.Push? && next.top.words != [] && Frames(next) == AddWord(Frames(levels), w)
    ensures fresh(StackObjects(next) - StackObjects(levels)) && fresh(OpenObjects(next) - OpenObjects(levels))
    ensures old(levels.top.block.statements) <= levels.top.block.statements
  {
    hide Tree, Matches, Objects, Refs;
    var top := stack[|stack| - 1];
    ghost var l := levels.top;
    assert allocated(StackObjects(levels.below)) && allocated(LevelObjects(l));
    if last != Normal {
      var s := new NginxConfigStatement();
      top.statements := top.statements + [s];
    }
    var s := top.statements[|top.statements| - 1];
    s.tokens := s.tokens + [w];
    next := Push(levels.below, Level(l.block, l.done, s, l.words + [w]));
  }

  /** An opening brace: the statement being read gets a new block, and it had none. */
  method OpenBlock(stack: seq<NginxConfig>, ghost levels: Levels)
    returns (pushed: seq<NginxConfig>, ghost next: Levels)
    requires levels.Push? && Spined(levels, null) && stack == Blocks(levels)
    requires levels.top.words != []
    modifies levels.top.current
    ensures Spined(next, null) && pushed == Blocks(next)
    ensures |pushed| == |stack| + 1 && pushed[..|stack|] == stack
    ensures next.Push? && next.top.words == [] && Frames(next) == Frames(levels) + [Frame([], [])]
    ensures fresh(StackObjects(next) - StackObjects(levels)) && fresh(OpenObjects(next) - OpenObjects(levels))
  {
    hide Tree, Matches, Objects, Refs;
    assert allocated(StackObjects(levels)) && allocated(StackObjects(levels.below)) &&
      allocated(LevelObjects(levels.top));
    var top := stack[|stack| - 1];
    var s := top.statements[|top.statements| - 1];
    assert s.childBlock == null;
    var block := new NginxConfig();
    s.childBlock := block;
    pushed := stack + [block];
    EmptyShape();
    next := Push(levels, Level(block, [], null, []));
  }

  /** Finishing a statement changes no object: it only becomes one of the finished statements. */
  lemma {:induction false} FinishLevel(l: Level, s: Shape) returns (f: Level)
    requires LevelHolds(l, if s.Branch? then s.block else null) && l.current != null
    requires s.obj == l.current && s.tokens == l.words && MatchesOne(s)
    requires l.block !in ObjectsOne(s)
    ensures f.block == l.block && f.current == null && LevelHolds(f, null)
    ensures FrameOf(f) == Frame(Tree(l.done) + [TreeOne(s)], [])
    ensures LevelObjects(f) == LevelObjects(l) + ObjectsOne(s)
  {
    TreeAppend(l.done, s);
    ObjectsAppend(l.done, s);
    MatchesAppend(l.done, s);
    assert s.obj in ObjectsOne(s);
    hide Tree, TreeOne, Objects, ObjectsOne, Matches, MatchesOne;
    assert Refs(l.done + [s]) == Refs(l.done) + [l.current];
    f := Level(l.block, l.done + [s], null, []);
  }

  /** The end of a statement. */
  lemma {:induction false} FinishStatement(levels: Levels) returns (next: Levels)
    requires levels.Push? && Spined(levels, null) && levels.top.words != []
    ensures Spined(next, null) && Blocks(next) == Blocks(levels)
    ensures next.Push? && next.top.words == [] && Frames(next) == EndStatement(Frames(levels))
    ensures StackObjects(next) == StackObjects(levels) && OpenObjects(next) <= OpenObjects(levels)
  {
    var l := levels.top;
    var f := FinishLevel(l, Leaf(l.current, l.words));
    hide Tree, Objects, Matches, Refs;
    next := Push(levels.below, f);
  }

  /** A closing brace: the innermost block becomes the child of a finished statement. */
  lemma {:induction false} FinishBlock(levels: Levels) returns (next: Levels)
    requires levels.Push? && Spined(levels, null) && levels.top.words == []
    ensures Spined(next, null) && Blocks(next) == Blocks(levels.below)
    ensures next.Push? ==> next.top.words == []
    ensures Frames(next) == CloseBlock(Frames(levels))
    ensures StackObjects(next) <= StackObjects(levels) && OpenObjects(next) <= OpenObjects(levels)
  {
    match levels.below
    case Bottom =>
      next := Bottom;
    case Push(rest, under) =>
      var l := levels.top;
      assert l.block.statements == Refs(l.done);
      var branch := Branch(under.current, under.words, l.block, l.done);
      var f := FinishLevel(under, branch);
      hide Tree, Objects, Matches, Refs;
      next := Push(rest, f);
      assert ObjectsOne(branch) <= LevelObjects(l) + LevelObjects(under);
      assert FrameOf(f) == Frame(Tree(under.done) + [Block(under.words, Tree(l.done))], []);
  }

  // ---------------------------------------------------------------------------------------
  // The parse loop
  // ---------------------------------------------------------------------------------------

  /** One turn of the machine for what the lexer returned. */
  function Turn(m: Machine, kind: TokenType, value: string): Machine {
    if kind == Comment || kind == Start then m else Step(m, AsToken(kind, value)[0])
  }

  /** The machine goes from m over the tokens of rest to outcome. */
  ghost predicate Leads(m: Machine, rest: string, outcome: Machine) {
    Steps(m, Tokens(rest)) == outcome
  }

  /** One call of the lexer and one turn are one step of the machine over the whole token stream. */
  lemma {:induction false} StepsLex(m: Machine, s: string, outcome: Machine)
    requires Leads(m, s, outcome)
    ensures var t := Lex(s);
            match t.kind
            case Start => false
            case Comment => Leads(m, t.rest, outcome)
            case Eof => Turn(m, t.kind, t.value) == outcome
            case Error => m.Running? ==> outcome == Rejected
            case _ => Leads(Turn(m, t.kind, t.value), t.rest, outcome)
  {
    var t := Lex(s);
    var first := AsToken(t.kind, t.value);
    var rest := if t.kind == Eof || t.kind == Error then [] else Tokens(t.rest);
    LexIsFirstToken(s);
    hide Lex;
    StepsAppend(m, first, rest);
    assert first != [] ==> first == [first[0]] && Steps(m, first) == Steps(Step(m, first[0]), first[1..]);
  }

  /** Undefined and rejected machines stay so. */
  lemma {:induction false} LeadsNowhere(m: Machine, rest: string, outcome: Machine)
    requires Leads(m, rest, outcome) && !m.Running?
    ensures outcome == m
  {
    StepsStay(m, Tokens(rest));
  }

  /** The machine that starts with the statements of c leads to what parsing appends to them. */
  lemma {:induction false} StartsOn(c: Config, text: string)
    ensures Leads(Running([Frame(c, [])], Start), text, On(c, Parse(text)))
    ensures On(c, Parse(text)) == Undefined <==> Parse(text) == Undefined
    ensures On(c, Parse(text)).Accepted? <==> Parse(text).Accepted?
    ensures Parse(text).Accepted? ==> On(c, Parse(text)) == Accepted(c + Parse(text).config)
  {
    StepsOn(c, INITIAL, Tokens(text));
    assert On(c, INITIAL) == Running([Frame(c, [])], Start) by { assert c + [] == c; }
    hide Steps, Tokens;
  }

  /** The objects agree with the machine: its open blocks are theirs. */
  ghost predicate Agrees(config: NginxConfig, stack: seq<NginxConfig>, levels: Levels, last: TokenType)
    reads StackObjects(levels)
  {
    && Spined(levels, null) && stack == Blocks(levels)
    && (levels == Bottom ==> last == EndBlock)
    && (stack != [] ==> stack[0] == config)
    && (levels.Push? ==> (last == Normal <==> levels.top.words != []))
  }

  /** A stream is none of the objects of a tree. */
  lemma {:induction false} StreamApart(input: InputStream, ss: seq<Shape>)
    ensures input !in Objects(ss)
    decreases ss, 0
  {
    if ss != [] {
      StreamApartOne(input, ss[0]);
      StreamApart(input, ss[1..]);
    }
  }

  lemma {:induction false} StreamApartOne(input: InputStream, s: Shape)
    ensures input !in ObjectsOne(s)
    decreases s, 1
  {
    if s.Branch? { StreamApart(input, s.stmts); }
  }

  lemma {:induction false} StreamApartStack(input: InputStream, levels: Levels)
    ensures input !in StackObjects(levels)
  {
    match levels
    case Bottom =>
    case Push(below, top) =>
      StreamApart(input, top.done);
      StreamApartStack(input, below);
  }

  /** Where the parse loop is: the objects agree with the machine, the counter with the stack, and apart
      from the root and what it held before every object was made by the loop. */
  ghost predicate Parsing(config: NginxConfig, before: seq<Shape>, stack: seq<NginxConfig>, indentCount: int,
                          last: TokenType, levels: Levels, made: set<object>)
    reads StackObjects(levels)
  {
    && Agrees(config, stack, levels, last) && indentCount == |stack| - 1
    && StackObjects(levels) <= {config} + Objects(before) + made
    && OpenObjects(levels) <= {config} + made
  }

  lemma {:induction false} OnlyRoot(config: NginxConfig, before: seq<Shape>) returns (levels: Levels)
    requires Holds(config, before) && config !in Objects(before)
    ensures Frames(levels) == [Frame(Tree(before), [])]
    ensures Parsing(config, before, [config], 0, Start, levels, {}) && TopObjects(levels) == {config}
  {
    levels := Push(Bottom, Level(config, before, null, []));
    assert LevelHolds(levels.top, null) && Spined(levels, null);
    assert Blocks(Bottom) == [] && Blocks(levels) == [config];
  }

  lemma {:induction false} StackFacts(levels: Levels)
    ensures |Frames(levels)| == |Blocks(levels)|
    ensures levels.Push? <==> Blocks(levels) != []
    ensures levels.Push? ==> (levels.below == Bottom <==> |Blocks(levels)| == 1)
    ensures levels.Push? ==> Blocks(levels.below) == Blocks(levels)[..|Blocks(levels)| - 1]
    ensures levels.Push? ==>
      LevelObjects(levels.top) <= StackObjects(levels) && levels.top.block == Blocks(levels)[|Blocks(levels)| - 1]
    ensures TopObjects(levels) <= OpenObjects(levels) <= StackObjects(levels)
  {
    match levels
    case Bottom =>
    case Push(below, _) => StackFacts(below);
  }

  /** The end of the input: accepted when only the root is open and no statement is being read, and
      then the root holds the tree. */
  lemma {:induction false} RootShape(config: NginxConfig, before: seq<Shape>, stack: seq<NginxConfig>, indentCount: int,
                                     last: TokenType, value: string, levels: Levels, made: set<object>)
    returns (shape: seq<Shape>)
    requires Parsing(config, before, stack, indentCount, last, levels, made)
    ensures var m := Turn(Running(Frames(levels), last), Eof, value);
            if (last != StatementEnd && last != EndBlock && last != Start) || indentCount != 0 then m == Rejected
            else
              && m == Accepted(Tree(shape)) && Holds(config, shape)
              && config !in Objects(shape) && Objects(shape) <= Objects(before) + made
  {
    StackFacts(levels);
    if |stack| == 1 && last != Normal {
      shape := levels.top.done;
      assert Frames(levels.below) == [];
    } else {
      shape := [];
    }
  }

  /** The part of the parse loop that changes the tree, for a token that neither ends the input nor
      is skipped. Of the root only the list of statements may change, and only at its end. */
  method TakeToken(config: NginxConfig, ghost before: seq<Shape>, stack: seq<NginxConfig>, indentCount: int,
                   last: TokenType, kind: TokenType, token: string, ghost levels: Levels, ghost made: set<object>)
    returns (ok: bool, newStack: seq<NginxConfig>, newIndent: int, ghost next: Levels, ghost more: set<object>)
    requires Parsing(config, before, stack, indentCount, last, levels, made)
    requires kind == Normal || kind == StatementEnd || kind == StartBlock || kind == EndBlock
    requires Turn(Running(Frames(levels), last), kind, token) != Undefined
    modifies TopObjects(levels)
    ensures var m := Turn(Running(Frames(levels), last), kind, token);
            if ok then
              Parsing(config, before, newStack, newIndent, kind, next, more) && m == Running(Frames(next), kind)
            else m == Rejected
    ensures made <= more && fresh(more - made) && (ok ==> TopObjects(next) <= {config} + more)
    ensures old(config.statements) <= config.statements
  {
    StackFacts(levels);
    hide Tree, Objects, Matches, Refs, Spined, StackObjects, OpenObjects, Blocks, Frames, AddWord, EndStatement,
      CloseBlock;
    ok, newStack, newIndent, next, more := true, stack, indentCount, levels, made;
    if kind == Normal {
      next := AppendWord(stack, last, token, levels);
    } else if kind == StatementEnd {
      if last != Normal {
        return false, stack, indentCount, levels, made;
      }
      next := FinishStatement(levels);
    } else if kind == StartBlock {
      if last != Normal {
        return false, stack, indentCount, levels, made;
      }
      newIndent := indentCount + 1;
      newStack, next := OpenBlock(stack, levels);
    } else {
      if last != StatementEnd && last != StartBlock && last != EndBlock {
        return false, stack, indentCount, levels, made;
      }
      newIndent := indentCount - 1;
      newStack := stack[..|stack| - 1];
      next := FinishBlock(levels);
    }
    StackFacts(next);
    more := made + (StackObjects(next) - StackObjects(levels)) + (OpenObjects(next) - OpenObjects(levels));
  }

  /** The checks at the end of the input. */
  method EndOfInput(config: NginxConfig, ghost before: seq<Shape>, stack: seq<NginxConfig>, indentCount: int,
                    last: TokenType, ghost value: string, ghost levels: Levels, ghost made: set<object>)
    returns (ok: bool, ghost shape: seq<Shape>)
    requires Parsing(config, before, stack, indentCount, last, levels, made)
    ensures var m := Turn(Running(Frames(levels), last), Eof, value);
            if !ok then m == Rejected
            else
              && m == Accepted(Tree(shape)) && Holds(config, shape)
              && config !in Objects(shape) && Objects(shape) <= Objects(before) + made
  {
    shape := RootShape(config, before, stack, indentCount, last, value, levels, made);
    hide Turn, Frames, Tree, Holds, Objects;
    if last != StatementEnd && last != EndBlock && last != Start {
      return false, [];
    }
    if indentCount != 0 {
      return false, [];
    }
    return true, shape;
  }

  /** One token, and what it means for a machine that leads to outcome. */
  method ReadToken(input: InputStream, ghost m: Machine, ghost outcome: Machine)
    returns (kind: TokenType, token: string)
    requires input.Valid() && m.Running? && Leads(m, input.Rest(), outcome)
    modifies input
    ensures input.Valid()
    ensures match kind
            case Start => false
            case Comment => Leads(m, input.Rest(), outcome)
            case Eof => Turn(m, kind, token) == outcome
            case Error => outcome == Rejected
            case _ =>
              var next := Turn(m, kind, token);
              Leads(next, input.Rest(), outcome) && (next == Undefined || next == Rejected ==> outcome == next)
    ensures kind != Eof && kind != Error ==> |input.Rest()| < |old(input.Rest())|
  {
    StepsLex(m, input.Rest(), outcome);
    kind, token := ParseToken(input);
    hide Lex, Leads, IsFirstToken, Turn;
    if kind != Eof && kind != Error && kind != Comment && !Turn(m, kind, token).Running? {
      LeadsNowhere(Turn(m, kind, token), input.Rest(), outcome);
    }
  }

  /** The parse loop on top of what config holds before. It may be called on every input but those on
      which it would use its stack after popping the root. */
  method ParseLoop(input: InputStream, config: NginxConfig, ghost before: seq<Shape>, ghost outcome: Machine)
    returns (ok: bool, ghost shape: seq<Shape>)
    requires input.Valid() && Holds(config, before) && config !in Objects(before)
    requires Leads(Running([Frame(Tree(before), [])], Start), input.Rest(), outcome) && outcome != Undefined
    modifies input, config
    ensures input.Valid()
    ensures if !ok then outcome == Rejected
            else
              && outcome == Accepted(Tree(shape)) && Holds(config, shape)
              && config !in Objects(shape) && fresh(Objects(shape) - Objects(before))
    ensures old(config.statements) <= config.statements
  {
    hide Turn, Leads, Tree, Objects, Parsing, StackObjects, TopObjects, Frames, Holds;
    ok, shape := false, [];
    var stack := [config];
    var last := Start;
    var indentCount := 0;
    ghost var levels := OnlyRoot(config, before);
    ghost var made: set<object> := {};
    while true
      invariant input.Valid()
      invariant Parsing(config, before, stack, indentCount, last, levels, made)
      invariant Leads(Running(Frames(levels), last), input.Rest(), outcome)
      invariant TopObjects(levels) <= {config} + made && fresh(made)
      invariant old(config.statements) <= config.statements
      decreases |input.Rest()|
    {
      StreamApartStack(input, levels);
      assert allocated(StackObjects(levels));
      var kind, token := ReadToken(input, Running(Frames(levels), last), outcome);
      if kind == Error {
        break;
      }
      if kind == Comment {
        continue;
      }
      if kind == Eof {
        ok, shape := EndOfInput(config, before, stack, indentCount, last, token, levels, made);
        return;
      }
      var going;
      going, stack, indentCount, levels, made :=
        TakeToken(config, before, stack, indentCount, last, kind, token, levels, made);
      if !going {
        break;
      }
      last := kind;
    }
  }

  /** Parsing accepts what the machine accepts, and then config holds the machine's tree, in objects of
      its own. What is read comes after the statements that config has already; those do not change. */
  method ParseStream(input: InputStream, config: NginxConfig, ghost before: seq<Shape>)
    returns (ok: bool, ghost shape: seq<Shape>)
    requires input.Valid() && Holds(config, before) && config !in Objects(before)
    requires Parse(input.Rest()) != Undefined
    modifies input, config
    ensures input.Valid()
    ensures ok <==> Parse(old(input.Rest())).Accepted?
    ensures ok ==> Holds(config, shape) && Tree(shape) == Tree(before) + Parse(old(input.Rest())).config
    ensures ok ==> config !in Objects(shape) && fresh(Objects(shape) - Objects(before))
    ensures old(config.statements) <= config.statements
  {
    StartsOn(Tree(before), input.Rest());
    hide Parse, On, Leads, Tree, Objects, Holds;
    ok, shape := ParseLoop(input, config, before, On(Tree(before), Parse(input.Rest())));
  }
}
