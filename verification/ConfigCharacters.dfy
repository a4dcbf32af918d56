/** The lexical rules of the configuration language, character by character: which characters are
    space, which end a word or a comment, and what each token is. Together they give the tokens of
    every input. */
module ConfigCharacters {
  import opened ConfigLexer

  lemma {:induction false} LineEndAt(s: string, k: nat)
    requires k < |s| && IsNewline(s[k]) && forall i :: 0 <= i < k ==> !IsNewline(s[i])
    ensures LineEnd(s) == k
    decreases k
  {
    if k > 0 { LineEndAt(s[1..], k - 1); }
  }

  lemma {:induction false} FillerFirst(g: string, rest: string)
    requires IsFiller(g)
    ensures Tokens(g + rest) == Tokens(rest)
  {
    RunFiller([], g);
    assert Run(START, "") == START;
    hide Run, Tokens, IsFiller;
    SameRunSameTokens(g, "", rest);
    assert "" + rest == rest;
  }

  /** A space, a tab, a newline and a carriage return are skipped between tokens. */
  lemma {:induction false} SpaceIsSkipped(c: char, rest: string)
    requires c == ' ' || c == '\t' || c == '\n' || c == '\r'
    ensures Tokens([c] + rest) == Tokens(rest)
  {
    assert [c][1..] == "";
    FillerFirst([c], rest);
  }

  /** A comment begins with a number sign and ends with a newline or a carriage return. */
  lemma {:induction false} CommentIsSkipped(body: string, end: char, rest: string)
    requires forall i :: 0 <= i < |body| ==> body[i] != '\n' && body[i] != '\r'
    requires end == '\n' || end == '\r'
    ensures Tokens("#" + body + [end] + rest) == Tokens(rest)
  {
    var g := "#" + body + [end];
    assert forall i :: 0 <= i < |body| ==> g[i + 1] == body[i];
    LineEndAt(g, |body| + 1);
    assert g[|body| + 2..] == "";
    FillerFirst(g, rest);
  }

  /** A comment that nothing ends is the end of the input. */
  lemma {:induction false} OpenCommentEnds(body: string)
    requires forall i :: 0 <= i < |body| ==> body[i] != '\n' && body[i] != '\r'
    ensures Tokens("#" + body) == [EndOfInput]
  {
    First("#" + body, Lexed(Eof, "#" + body, ""));
  }

  lemma {:induction false} First(s: string, t: Lexed)
    requires s == "" || !IsSpace(s[0])
    requires IsTokenOf(s, t)
    ensures Lex(s) == t
  {
    LexIsFirstToken(s);
    FirstTokenUnique(s, Lex(s), t);
  }

  /** No input, no token. */
  lemma {:induction false} NothingEnds()
    ensures Tokens("") == [EndOfInput]
  {
    First("", Lexed(Eof, "", ""));
  }

  /** A brace and a semicolon are tokens by themselves. */
  lemma {:induction false} Punctuation(rest: string)
    ensures Tokens("{" + rest) == [Open] + Tokens(rest)
    ensures Tokens("}" + rest) == [Close] + Tokens(rest)
    ensures Tokens(";" + rest) == [Semi] + Tokens(rest)
  {
    First("{" + rest, Lexed(StartBlock, "{", rest));
    First("}" + rest, Lexed(EndBlock, "}", rest));
    First(";" + rest, Lexed(StatementEnd, ";", rest));
  }

  /** The characters of a bare word, the first of which is also no carriage return, number sign or
      quote. */
  predicate IsSpelledBare(w: string) {
    && w != "" && w[0] != '\r' && w[0] != '#' && w[0] != '"' && w[0] != '\''
    && forall i :: 0 <= i < |w| ==>
         w[i] != ' ' && w[i] != '\t' && w[i] != '\n' && w[i] != ';' && w[i] != '{' && w[i] != '}'
  }

  /** A bare word goes on to the next space, tab, newline, semicolon or brace, which is left for the
      next token: a later carriage return is part of it. */
  lemma {:induction false} BareWord(w: string, end: char, rest: string)
    requires IsSpelledBare(w)
    requires end == ' ' || end == '\t' || end == '\n' || end == ';' || end == '{' || end == '}'
    ensures Lex(w + [end] + rest) == Lexed(Normal, w, [end] + rest)
    ensures Tokens(w + [end] + rest) == [Word(w)] + Tokens([end] + rest)
  {
    assert w + [end] + rest == w + ([end] + rest);
    WordRelexes(w, [end] + rest);
  }

  /** A bare word that nothing ends is dropped. */
  lemma {:induction false} OpenWordEnds(w: string)
    requires IsSpelledBare(w)
    ensures Tokens(w) == [EndOfInput]
  {
    First(w, Lexed(Eof, w, ""));
  }

  /** A quoted word goes on to the next quote of the same kind, and keeps both; whatever follows. */
  lemma {:induction false} QuotedWord(q: char, body: string, rest: string)
    requires (q == '"' || q == '\'') && forall i :: 0 <= i < |body| ==> body[i] != q
    ensures Lex([q] + body + [q] + rest) == Lexed(Normal, [q] + body + [q], rest)
    ensures Tokens([q] + body + [q] + rest) == [Word([q] + body + [q])] + Tokens(rest)
  {
    var w := [q] + body + [q];
    assert w[..|w| - 1] == [q] + body;
    WordRelexes(w, rest);
  }

  /** A quote that nothing ends is an error. */
  lemma {:induction false} OpenQuoteFails(q: char, body: string)
    requires (q == '"' || q == '\'') && forall i :: 0 <= i < |body| ==> body[i] != q
    ensures Tokens([q] + body) == [BadQuote]
  {
    First([q] + body, Lexed(Error, [q] + body, ""));
  }
}
