/** The addresses of the CRUD service: slashes, an entity name, and perhaps an id. */
module CrudUrl {
  import opened Decimal
  import opened Options

  predicate IsLetter(c: char) {
    'a' <= c <= 'z' || 'A' <= c <= 'Z'
  }

  predicate AllLetters(s: string) {
    forall i :: 0 <= i < |s| ==> IsLetter(s[i])
  }

  function Slashes(n: nat): string {
    seq(n, _ => '/')
  }

  // ---------------------------------------------------------------------------------------
  // The pattern
  // ---------------------------------------------------------------------------------------

  /** The part of the address after the entity's own slashes: nothing, or a slash and digits. */
  predicate IsTail(tail: string, digits: Option<string>) {
    match digits
    case None => tail == ""
    case Some(d) => d != "" && AllDigits(d) && tail == "/" + d
  }

  /** One way to read s as any number of slashes, letters, any number of slashes and a tail. The two
      last parts overlap: a slash before the digits may be either. */
  ghost predicate Reads(s: string, entity: string, digits: Option<string>) {
    entity != "" && AllLetters(entity) &&
    exists i: nat, j: nat, tail :: IsTail(tail, digits) && s == Slashes(i) + entity + Slashes(j) + tail
  }

  // ---------------------------------------------------------------------------------------
  // A scanner for it
  // ---------------------------------------------------------------------------------------

  function SkipSlashes(s: string): string {
    if s != "" && s[0] == '/' then SkipSlashes(s[1..]) else s
  }

  function LeadingLetters(s: string): (w: string)
    ensures AllLetters(w)
  {
    if s == "" || !IsLetter(s[0]) then "" else [s[0]] + LeadingLetters(s[1..])
  }

  lemma {:induction false} LeadingLettersPrefix(s: string)
    ensures var w := LeadingLetters(s);
            |w| <= |s| && w == s[..|w|] && (|w| < |s| ==> !IsLetter(s[|w|]))
  {
    if s != "" && IsLetter(s[0]) {
      LeadingLettersPrefix(s[1..]);
      var w := LeadingLetters(s[1..]);
      assert s[..|w| + 1] == [s[0]] + s[1..][..|w|];
    }
  }

  /** The outcome of reading an address; an id that does not fit an int makes stoi throw. */
  datatype Elements = NoMatch | Elements(entity: string, id: int) | Overflow

  function Extract(s: string): Elements {
    var trimmed := SkipSlashes(s);
    var entity := LeadingLetters(trimmed);
    LeadingLettersPrefix(trimmed);
    var rest := trimmed[|entity|..];
    var last := SkipSlashes(rest);
    if entity == "" then NoMatch
    else if last == "" then Elements(entity, 0)
    else if last != rest && AllDigits(last) then
      match Stoi(last)
      case Number(n) => Elements(entity, n)
      case _ => Overflow
    else NoMatch
  }

  /** What a reading of s amounts to. */
  function Outcome(entity: string, digits: Option<string>): Elements
    requires digits.Some? ==> AllDigits(digits.value)
  {
    match digits
    case None => Elements(entity, 0)
    case Some(d) => if Value(d) <= INT_MAX then Elements(entity, Value(d)) else Overflow
  }

  lemma {:induction false} SkipSlashesAll(n: nat, s: string)
    requires s == "" || s[0] != '/'
    ensures SkipSlashes(Slashes(n) + s) == s
  {
    if n > 0 {
      assert (Slashes(n) + s)[1..] == Slashes(n - 1) + s;
      SkipSlashesAll(n - 1, s);
    } else {
      assert Slashes(n) + s == s;
    }
  }

  lemma {:induction false} SkipSlashesSplit(s: string) returns (n: nat)
    ensures s == Slashes(n) + SkipSlashes(s)
    ensures n == 0 <==> SkipSlashes(s) == s
    ensures SkipSlashes(s) == "" || SkipSlashes(s)[0] != '/'
  {
    if s != "" && s[0] == '/' {
      n := SkipSlashesSplit(s[1..]);
      n := n + 1;
      assert s == ['/'] + s[1..];
    } else {
      n := 0;
    }
  }

  lemma {:induction false} LeadingLettersAll(w: string, rest: string)
    requires AllLetters(w) && (rest == "" || !IsLetter(rest[0]))
    ensures LeadingLetters(w + rest) == w
  {
    if w == "" {
      assert w + rest == rest;
    } else {
      assert (w + rest)[1..] == w[1..] + rest;
      LeadingLettersAll(w[1..], rest);
    }
  }

  /** Every reading of s has the scanner's outcome, so the overlap makes no difference. */
  lemma {:induction false} ExtractReads(s: string, entity: string, digits: Option<string>)
    requires Reads(s, entity, digits)
    ensures Extract(s) == Outcome(entity, digits)
  {
    hide Stoi, Value;
    var i: nat, j: nat, tail :| IsTail(tail, digits) && s == Slashes(i) + entity + Slashes(j) + tail;
    var rest := Slashes(j) + tail;
    assert rest == "" || rest[0] == '/';
    assert s == Slashes(i) + (entity + rest);
    SkipSlashesAll(i, entity + rest);
    LeadingLettersAll(entity, rest);
    assert (entity + rest)[|entity|..] == rest;
    match digits
    case None =>
      SkipSlashesAll(j, "");
    case Some(d) =>
      assert rest == Slashes(j + 1) + d;
      SkipSlashesAll(j + 1, d);
      StoiDigits(d);
  }

  /** And the scanner refuses only what has no reading. */
  lemma {:induction false} ExtractComplete(s: string)
    ensures Extract(s) == NoMatch <==> forall entity, digits :: !Reads(s, entity, digits)
  {
    if Extract(s) != NoMatch {
      var trimmed := SkipSlashes(s);
      var entity := LeadingLetters(trimmed);
      LeadingLettersPrefix(trimmed);
      var rest := trimmed[|entity|..];
      var i := SkipSlashesSplit(s);
      var j := SkipSlashesSplit(rest);
      var last := SkipSlashes(rest);
      assert trimmed == entity + rest;
      if last == "" {
        assert IsTail("", None) && s == Slashes(i) + entity + Slashes(j) + "";
        assert Reads(s, entity, None);
      } else {
        assert Slashes(j) == Slashes(j - 1) + "/";
        assert IsTail("/" + last, Some(last)) && s == Slashes(i) + entity + Slashes(j - 1) + ("/" + last);
        assert Reads(s, entity, Some(last));
      }
    } else {
      forall entity, digits ensures !Reads(s, entity, digits) {
        if Reads(s, entity, digits) { ExtractReads(s, entity, digits); }
      }
    }
  }

  /** The address of an entity's id is read back as that entity and id. */
  lemma {:induction false} ExtractAddress(entity: string, id: nat)
    requires entity != "" && AllLetters(entity) && id <= INT_MAX
    ensures Extract("/" + entity + "/" + ToString(id)) == Elements(entity, id)
  {
    var d := ToString(id);
    assert "/" + entity + "/" + d == Slashes(1) + entity + Slashes(0) + ("/" + d);
    assert IsTail("/" + d, Some(d));
    assert Reads("/" + entity + "/" + d, entity, Some(d));
    ExtractReads("/" + entity + "/" + d, entity, Some(d));
    ValueToString(id);
  }

  // ---------------------------------------------------------------------------------------
  // The addresses, character by character
  // ---------------------------------------------------------------------------------------

  /** Slashes, letters of either case, and then slashes, or at least one slash and digits. */
  predicate IsSpelled(s: string, i: nat, entity: string, j: nat, digits: string) {
    && s == seq(i, _ => '/') + entity + seq(j, _ => '/') + digits
    && entity != "" && (forall k :: 0 <= k < |entity| ==> 'a' <= entity[k] <= 'z' || 'A' <= entity[k] <= 'Z')
    && (forall k :: 0 <= k < |digits| ==> '0' <= digits[k] <= '9') && (digits != "" ==> j > 0)
  }

  lemma {:induction false} SpelledReads(s: string, i: nat, entity: string, j: nat, digits: string)
    requires IsSpelled(s, i, entity, j, digits)
    ensures Reads(s, entity, if digits == "" then None else Some(digits))
  {
    assert AllLetters(entity) && AllDigits(digits);
    if digits == "" {
      assert IsTail("", None) && s == Slashes(i) + entity + Slashes(j) + "";
    } else {
      assert Slashes(j) == Slashes(j - 1) + "/";
      assert IsTail("/" + digits, Some(digits)) && s == Slashes(i) + entity + Slashes(j - 1) + ("/" + digits);
    }
  }

  /** Such an address is an entity and an id: 0 without digits, and their value with them, as far as it
      fits an int. */
  lemma {:induction false} ExtractSpelled(s: string, i: nat, entity: string, j: nat, digits: string)
    requires IsSpelled(s, i, entity, j, digits)
    ensures AllDigits(digits)
    ensures Extract(s) ==
      if digits == "" then Elements(entity, 0)
      else if Value(digits) <= 0x7fff_ffff then Elements(entity, Value(digits))
      else Overflow
  {
    assert AllDigits(digits);
    SpelledReads(s, i, entity, j, digits);
    ExtractReads(s, entity, if digits == "" then None else Some(digits));
    hide Extract, Value;
  }

  /** And there is no other. */
  lemma {:induction false} ExtractOnlySpelled(s: string) returns (i: nat, entity: string, j: nat, digits: string)
    requires Extract(s) != NoMatch
    ensures IsSpelled(s, i, entity, j, digits)
  {
    ExtractComplete(s);
    hide Extract;
    var d: Option<string>;
    entity, d :| Reads(s, entity, d);
    var i0: nat, j0: nat, tail :| IsTail(tail, d) && s == Slashes(i0) + entity + Slashes(j0) + tail;
    assert AllLetters(entity);
    match d
    case None =>
      i, j, digits := i0, j0, "";
    case Some(v) =>
      i, j, digits := i0, j0 + 1, v;
      assert Slashes(j) == Slashes(j0) + "/";
  }
}
