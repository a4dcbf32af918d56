/** The printed form of a configuration, position by position. */
module ConfigLayout {
  import opened ConfigLexer
  import opened ConfigSyntax

  /** The number of characters in some words. */
  function Letters(words: seq<string>): nat {
    if words == [] then 0 else Letters(words[..|words| - 1]) + |words[|words| - 1]|
  }

  /** Where the word k is in the line of a statement: after two spaces for each level, the words before
      it, and a space for each of them. */
  function Position(words: seq<string>, k: nat, depth: nat): nat
    requires k <= |words|
  {
    2 * depth + Letters(words[..k]) + k
  }

  function Spaces(n: nat): string {
    seq(n, _ => ' ')
  }

  lemma {:induction false} IndentIsSpaces(depth: nat)
    ensures Indent(depth) == Spaces(2 * depth)
  {
    if depth > 0 {
      IndentIsSpaces(depth - 1);
      assert Spaces(2 * depth) == Spaces(2 * depth - 2) + "  ";
    }
  }

  lemma {:induction false} JoinedLength(words: seq<string>)
    requires words != []
    ensures |Joined(words)| == Letters(words) + |words| - 1
    decreases |words|
  {
    if |words| > 1 {
      JoinedLength(words[..|words| - 1]);
    } else {
      assert Letters(words[..0]) == 0;
    }
  }

  lemma {:induction false} LettersPrefix(words: seq<string>, k: nat)
    requires k < |words|
    ensures Letters(words[..k + 1]) == Letters(words[..k]) + |words[k]|
  {
    assert words[..k + 1][..k] == words[..k];
  }

  /** The text w stands in s at position p. */
  predicate IsAt(w: string, s: string, p: int) {
    0 <= p && p + |w| <= |s| && s[p..p + |w|] == w
  }

  lemma {:induction false} IsAtLonger(w: string, before: string, s: string, after: string, p: nat)
    requires IsAt(w, s, p)
    ensures IsAt(w, before + s + after, |before| + p)
  {
    var all := before + s + after;
    forall i | 0 <= i < |w| ensures all[|before| + p + i] == w[i] {
      assert w[i] == s[p..p + |w|][i];
    }
  }

  lemma {:induction false} IsAtItself(w: string, before: string, after: string)
    ensures IsAt(w, before + w + after, |before|)
  {
  }

  /** The words and the spaces between them. */
  lemma {:induction false} JoinedAt(words: seq<string>, k: nat)
    requires k < |words|
    ensures IsAt(words[k], Joined(words), Letters(words[..k]) + k)
    ensures k > 0 ==> IsAt(" ", Joined(words), Letters(words[..k]) + k - 1)
    decreases |words|
  {
    var n := |words| - 1;
    hide IsAt;
    if n == 0 {
      IsAtItself(words[0], "", "");
      assert "" + words[0] + "" == words[0] && words[..0] == [];
    } else {
      var (before, p) := (words[..n], Letters(words[..k]) + k);
      assert Joined(words) == Joined(before) + " " + words[n];
      JoinedLength(before);
      if k < n {
        JoinedAt(before, k);
        assert before[..k] == words[..k];
        hide Joined, Letters;
        IsAtJoined(before[k], Joined(before), words[n], p);
        if k > 0 { IsAtJoined(" ", Joined(before), words[n], p - 1); }
      } else {
        hide Joined, Letters;
        IsAtItself(words[n], Joined(before) + " ", "");
        IsAtItself(" ", Joined(before), words[n]);
        assert Joined(before) + " " + words[n] + "" == Joined(words);
      }
    }
  }

  lemma {:induction false} IsAtJoined(w: string, s: string, last: string, p: nat)
    requires IsAt(w, s, p)
    ensures IsAt(w, s + " " + last, p)
  {
    IsAtLonger(w, "", s, " " + last, p);
    assert "" + s + (" " + last) == s + " " + last;
  }

  /** A printed statement begins with two spaces for each level, and has its words one space apart. */
  lemma {:induction false} HeadLayout(s: Statement, depth: nat, k: nat)
    requires k < |s.tokens|
    ensures var (r, p) := (PrintStatement(s, depth), Position(s.tokens, k, depth));
            && IsAt(Spaces(2 * depth), r, 0) && IsAt(s.tokens[k], r, p)
            && (k > 0 ==> IsAt(" ", r, p - 1))
  {
    hide IsAt;
    var rest := HeadFirst(s, depth);
    var (indent, joined, q) := (Indent(depth), Joined(s.tokens), Letters(s.tokens[..k]) + k);
    IndentIsSpaces(depth);
    JoinedAt(s.tokens, k);
    assert |indent| == 2 * depth;
    hide PrintStatement, Joined, Indent, Letters, Spaces;
    IsAtLonger(s.tokens[k], indent, joined, rest, q);
    if k > 0 { IsAtLonger(" ", indent, joined, rest, q - 1); }
    IsAtStart(indent, joined, rest);
  }

  lemma {:induction false} IsAtStart(w: string, b: string, c: string)
    ensures IsAt(w, w + b + c, 0)
  {
  }

  lemma {:induction false} HeadFirst(s: Statement, depth: nat) returns (rest: string)
    ensures PrintStatement(s, depth) == Indent(depth) + Joined(s.tokens) + rest
  {
    hide Indent, Joined, Print;
    match s
    case Simple(_) =>
      rest := ";\n";
    case Block(_, child) =>
      rest := " {\n" + Print(child, depth + 1) + Indent(depth) + "}\n";
      assert PrintStatement(s, depth) == Indent(depth) + Joined(s.tokens) + rest;
  }

  /** The length of a statement's words with the spaces before and between them. */
  function HeadLength(s: Statement, depth: nat): nat
    requires s.tokens != []
  {
    2 * depth + Letters(s.tokens) + |s.tokens| - 1
  }

  /** A simple statement ends its line with a semicolon, right after its last word. */
  lemma {:induction false} SimpleLayout(s: Statement, depth: nat)
    requires s.Simple? && s.tokens != []
    ensures var (r, h) := (PrintStatement(s, depth), HeadLength(s, depth));
            |r| == h + 2 && r[h] == ';' && r[h + 1] == '\n'
  {
    IndentIsSpaces(depth);
    JoinedLength(s.tokens);
    hide Joined, Indent;
  }

  /** A block opens on the line of its words, its statements are printed one level deeper, and the
      closing brace has a line of its own, on the level of the words. */
  lemma {:induction false} BlockLayout(s: Statement, depth: nat)
    requires s.Block? && s.tokens != []
    ensures var (r, h, inner) := (PrintStatement(s, depth), HeadLength(s, depth), Print(s.child, depth + 1));
            && |r| == h + 3 + |inner| + 2 * depth + 2
            && r[h..] == " {\n" + inner + Spaces(2 * depth) + "}\n"
  {
    var head := Indent(depth) + Joined(s.tokens);
    IndentIsSpaces(depth);
    JoinedLength(s.tokens);
    hide Joined, Indent, Print;
    assert PrintStatement(s, depth) == head + (" {\n" + Print(s.child, depth + 1) + Spaces(2 * depth) + "}\n");
  }

  /** What a configuration prints is its statements, one after the other, all on one level. */
  lemma {:induction false} PrintAll(c: Config, d: Config, s: Statement, depth: nat)
    ensures Print(c + d, depth) == Print(c, depth) + Print(d, depth)
    ensures Print([s], depth) == PrintStatement(s, depth) && Print([], depth) == ""
    decreases |c|
  {
    hide PrintStatement;
    assert [s][1..] == [];
    if c == [] {
      assert c + d == d;
    } else {
      PrintAll(c[1..], d, s, depth);
      assert (c + d)[0] == c[0] && (c + d)[1..] == c[1..] + d;
    }
  }

  /** A nested statement at the top level: the line of the block, the statement after two spaces, and
      the closing brace at the left margin. */
  lemma {:induction false} NestedOnce(outer: string, inner: string)
    ensures Print([Block([outer], [Simple([inner])])], 0) == outer + " {\n" + "  " + inner + ";\n" + "}\n"
  {
    var s := Block([outer], [Simple([inner])]);
    PrintAll([], [], Simple([inner]), 1);
    PrintAll([], [], s, 0);
    IndentIsSpaces(1);
    IndentIsSpaces(0);
    hide Print, Indent;
    assert PrintStatement(Simple([inner]), 1) == "  " + inner + ";\n";
    assert Joined([outer]) == outer;
  }
}
