/** Blanking Haskell comments in place, keeping offsets, strings and nested blocks. */
module HaskellComments {
  import opened Regex
  import opened Seqs

  const LF: char := '\n'
  const QUOTE: char := '"'
  const TICK: char := '\''
  const ESCAPE: char := '\\'

  // --- The token expression, read at the front of a text -----------------------------------

  /** Width of the character literal at the front, 0 if there is none. */
  function CharWidth(t: string): (w: nat)
    ensures w <= |t| && (w == 0 || w == 3 || w == 4)
  {
    if |t| >= 3 && t[0] == TICK && t[1] != TICK && t[1] != ESCAPE && t[2] == TICK then 3
    else if |t| >= 4 && t[0] == TICK && t[1] == ESCAPE && t[3] == TICK then 4
    else 0
  }

  /** Width up to and including the first unescaped quote, 0 if there is none. */
  function Closing(t: string): (w: nat)
    ensures w <= |t|
  {
    if t == "" then 0
    else if t[0] == QUOTE then 1
    else if t[0] == ESCAPE then
      if |t| == 1 then 0 else var w := Closing(t[2..]); if w == 0 then 0 else w + 2
    else
      var w := Closing(t[1..]); if w == 0 then 0 else w + 1
  }

  function LineWidth(t: string): (w: nat)
    ensures w <= |t|
  {
    if t == "" || t[0] == LF then 0 else 1 + LineWidth(t[1..])
  }

  predicate OpensBlock(t: string) {
    |t| >= 2 && t[0] == '{' && t[1] == '-'
  }

  predicate ClosesBlock(t: string) {
    |t| >= 2 && t[0] == '-' && t[1] == '}'
  }

  /** Width of what is left of a block comment at the given depth: all of it if unterminated. */
  function BlockWidth(t: string, depth: nat): (w: nat)
    requires depth > 0
    ensures w <= |t|
  {
    if t == "" then 0
    else if OpensBlock(t) then 2 + BlockWidth(t[2..], depth + 1)
    else if ClosesBlock(t) then if depth == 1 then 2 else 2 + BlockWidth(t[2..], depth - 1)
    else 1 + BlockWidth(t[1..], depth)
  }

  datatype Token = Plain | Literal(width: nat) | Comment(width: nat)

  /** The token at the front of a text; `Plain` if the expression does not match there. */
  function TokenOf(t: string): (token: Token)
    requires t != ""
    ensures !token.Plain? ==> 2 <= token.width <= |t|
  {
    if CharWidth(t) > 0 then Literal(CharWidth(t))
    else if t[0] == QUOTE && Closing(t[1..]) > 0 then Literal(1 + Closing(t[1..]))
    else if |t| >= 2 && t[0] == '-' && t[1] == '-' then Comment(2 + LineWidth(t[2..]))
    else if OpensBlock(t) then Comment(2 + BlockWidth(t[2..], 1))
    else Plain
  }

  function Width(t: string): (w: nat)
    requires t != ""
    ensures 1 <= w <= |t|
  {
    if TokenOf(t).Plain? then 1 else TokenOf(t).width
  }

  function Blank(t: string): (b: string)
    ensures |b| == |t|
    ensures forall k :: 0 <= k < |t| ==> b[k] == if t[k] == LF then LF else ' '
  {
    seq(|t|, k requires 0 <= k < |t| => if t[k] == LF then LF else ' ')
  }

  /** The stripped text, token by token. */
  function Strip(t: string): (s: string)
    ensures |s| == |t|
    decreases |t|
  {
    if t == "" then ""
    else
      var w := Width(t);
      (if TokenOf(t).Comment? then Blank(t[..w]) else t[..w]) + Strip(t[w..])
  }

  // --- The expression itself -----------------------------------------------------------------

  const WITHIN := Or(Then(Lit('\\'), Any), NotIn({'\'', '\\'}))
  const CHARACTER := Then(Lit('\''), Then(WITHIN, Lit('\'')))
  const INSIDE := Or(Then(Lit('\\'), Any), NotIn({'"', '\\'}))
  const REST_OF_STRING := Then(Star(INSIDE), Lit('"'))
  const STRING := Then(Lit('"'), REST_OF_STRING)
  const REST_OF_LINE := Star(NotIn({'\n'}))
  const LINE := Then(Lit('-'), Then(Lit('-'), REST_OF_LINE))
  const OPENING := Then(Lit('{'), Lit('-'))

  /** `'(?:\\.|[^'\\])'|"(?:\\.|[^"\\])*"|--[^\n]*|\{-` with `DOTALL`. */
  const TOKENS := Or(CHARACTER, Or(STRING, Or(LINE, OPENING)))

  function Maybe(w: nat): seq<nat> { if w == 0 then [] else [w] }

  lemma EscapedMatches(t: string)
    ensures Widths(Then(Lit('\\'), Any), t) == if |t| >= 2 && t[0] == '\\' then [2] else []
  {
    LitThen('\\', Any, t);
    assert Plus(1, [1]) == [2];
  }

  /** Between the ticks: an escape and what it escapes, or one other character. */
  function WithinWidth(t: string): (w: nat)
    ensures w <= |t|
  {
    if t == "" || t[0] == '\'' then 0 else if t[0] == '\\' then if |t| >= 2 then 2 else 0 else 1
  }

  lemma WithinMatches(t: string)
    ensures Widths(WITHIN, t) == Maybe(WithinWidth(t))
  {
    EscapedMatches(t);
  }

  lemma WithinThenTick(t: string)
    ensures Widths(Then(WITHIN, Lit('\'')), t) ==
      if WithinWidth(t) > 0 && t[WithinWidth(t)..] != "" && t[WithinWidth(t)] == '\'' then [WithinWidth(t) + 1] else []
  {
    WithinMatches(t);
    if WithinWidth(t) > 0 {
      BehindOne(WithinWidth(t), Lit('\''), t);
    }
  }

  lemma CharacterMatches(t: string)
    ensures Widths(CHARACTER, t) == Maybe(CharWidth(t))
  {
    LitThen('\'', Then(WITHIN, Lit('\'')), t);
    if t != "" && t[0] == '\'' {
      WithinThenTick(t[1..]);
    }
  }

  lemma InsideMatches(t: string)
    ensures Widths(INSIDE, t) ==
      if t == "" || t[0] == '"' then [] else if t[0] == '\\' then if |t| >= 2 then [2] else [] else [1]
  {
    EscapedMatches(t);
  }

  lemma RestOfStringStep(t: string)
    ensures Widths(REST_OF_STRING, t) ==
      if t == "" then [] else if t[0] == '"' then [1]
      else if t[0] == '\\' then if |t| >= 2 then Plus(2, Widths(REST_OF_STRING, t[2..])) else []
      else Plus(1, Widths(REST_OF_STRING, t[1..]))
  {
    InsideMatches(t);
    QuoteMatches(t);
    StarThenHere(INSIDE, Lit('"'), t);
  }

  lemma QuoteMatches(t: string)
    ensures Widths(Lit('"'), t) == if t != "" && t[0] == '"' then [1] else []
  {
  }

  lemma {:induction false} RestOfStringMatches(t: string)
    ensures Widths(REST_OF_STRING, t) == Maybe(Closing(t))
    decreases |t|
  {
    RestOfStringStep(t);
    if t == "" || t[0] == '"' || t == "\\" {
    } else {
      RestOfStringMatches(t[if t[0] == '\\' then 2 else 1..]);
    }
  }

  lemma StringMatches(t: string)
    ensures Widths(STRING, t) ==
      if t != "" && t[0] == '"' && Closing(t[1..]) > 0 then [1 + Closing(t[1..])] else []
  {
    LitThen('"', REST_OF_STRING, t);
    if t != "" && t[0] == '"' {
      RestOfStringMatches(t[1..]);
    }
  }

  lemma {:induction false} RestOfLineMatches(t: string)
    ensures Widths(REST_OF_LINE, t) != [] && Widths(REST_OF_LINE, t)[0] == LineWidth(t)
    decreases |t|
  {
    StarFirst(NotIn({'\n'}), t);
    if t != "" && t[0] != '\n' {
      RestOfLineMatches(t[1..]);
    }
  }

  lemma LineMatches(t: string)
    ensures (Widths(LINE, t) != []) == (|t| >= 2 && t[0] == '-' && t[1] == '-')
    ensures Widths(LINE, t) != [] ==> Widths(LINE, t)[0] == 2 + LineWidth(t[2..])
  {
    LitThen('-', Then(Lit('-'), REST_OF_LINE), t);
    if t != "" && t[0] == '-' {
      var u := t[1..];
      LitThen('-', REST_OF_LINE, u);
      if u != "" && u[0] == '-' {
        RestOfLineMatches(u[1..]);
        assert u[1..] == t[2..];
        TwoMore(Widths(REST_OF_LINE, u[1..]));
      }
    }
  }

  lemma TwoMore(ws: seq<nat>)
    requires ws != []
    ensures Plus(1, Plus(1, ws)) != [] && Plus(1, Plus(1, ws))[0] == 2 + ws[0]
  {
  }

  lemma OpeningMatches(t: string)
    ensures Widths(OPENING, t) == if |t| >= 2 && t[0] == '{' && t[1] == '-' then [2] else []
  {
    LitThen('{', Lit('-'), t);
    assert Plus(1, [1]) == [2];
  }

  /** The scanner's token is the expression's match: there is one exactly when there is the other, of
      the same width (a block comment's match is its opening), and a literal begins with its quote. */
  lemma TokenIsTheMatch(t: string)
    requires t != ""
    ensures TokenOf(t).Plain? <==> Widths(TOKENS, t) == []
    ensures TokenOf(t).Literal? ==> Widths(TOKENS, t)[0] == TokenOf(t).width && t[0] in {'\'', '"'}
    ensures TokenOf(t).Comment? ==>
      Widths(TOKENS, t)[0] == (if t[0] == '-' then TokenOf(t).width else 2) && t[0] in {'-', '{'}
  {
    CharacterMatches(t);
    StringMatches(t);
    LineMatches(t);
    OpeningMatches(t);
    FirstOfFour(CHARACTER, STRING, LINE, OPENING, t);
  }

  /** What a tick may begin: a literal of one character or of one escape, and nothing else. */
  lemma CharacterLiterals(t: string)
    requires t != "" && t[0] == '\''
    ensures TokenOf(t) == Literal(3) <==> |t| >= 3 && t[1] != '\'' && t[1] != '\\' && t[2] == '\''
    ensures TokenOf(t) == Literal(4) <==> |t| >= 4 && t[1] == '\\' && t[3] == '\''
    ensures TokenOf(t) == Literal(3) || TokenOf(t) == Literal(4) || TokenOf(t) == Plain
  {
    TokenIsTheMatch(t);
    CharacterMatches(t);
  }

  // --- The in-place stripper ---------------------------------------------------------------

  /** Leftmost match at or after `index`, or the end of the source. */
  method Search(source: string, index: nat) returns (start: nat)
    requires index <= |source|
    ensures index <= start <= |source|
    ensures start < |source| ==> !TokenOf(source[start..]).Plain?
    ensures forall k :: index <= k < start ==> TokenOf(source[k..]).Plain?
  {
    start := index;
    while start < |source| && TokenOf(source[start..]).Plain?
      invariant index <= start <= |source|
      invariant forall k :: index <= k < start ==> TokenOf(source[k..]).Plain?
    {
      start := start + 1;
    }
  }

  predicate OpensAt(source: string, k: nat) {
    k + 2 <= |source| && source[k] == '{' && source[k + 1] == '-'
  }

  predicate ClosesAt(source: string, k: nat) {
    k + 2 <= |source| && source[k] == '-' && source[k + 1] == '}'
  }

  lemma BlockStep(source: string, k: nat, depth: nat)
    requires k < |source| && depth > 0
    ensures BlockWidth(source[k..], depth) ==
      if OpensAt(source, k) then 2 + BlockWidth(source[k + 2..], depth + 1)
      else if ClosesAt(source, k) then if depth == 1 then 2 else 2 + BlockWidth(source[k + 2..], depth - 1)
      else 1 + BlockWidth(source[k + 1..], depth)
  {
    Slices(source, k, 1);
    if k + 2 <= |source| {
      Slices(source, k, 2);
    }
  }

  /** The depth count over the delimiters that follow a block's opening. */
  method FindBlockEnd(source: string, start: nat) returns (index: nat)
    requires start <= |source|
    ensures index == start + BlockWidth(source[start..], 1)
  {
    var depth, next := 1, start;
    ghost var end := start + BlockWidth(source[start..], 1);
    while next < |source|
      invariant start <= next <= |source|
      invariant depth > 0 && end == next + BlockWidth(source[next..], depth)
    {
      BlockStep(source, next, depth);
      if OpensAt(source, next) {
        depth, next := depth + 1, next + 2;
      } else if ClosesAt(source, next) {
        depth, next := depth - 1, next + 2;
        if depth == 0 {
          return next;
        }
      } else {
        next := next + 1;
      }
    }
    return |source|;
  }

  /** From `index` on, the goal is the stripping of what is not yet scanned. */
  ghost predicate AtToken(goal: string, source: string, index: nat) {
    |goal| == |source| && index <= |source| && goal[index..] == Strip(source[index..])
  }

  lemma PassToken(goal: string, source: string, index: nat)
    requires AtToken(goal, source, index) && index < |source|
    ensures var here := source[index..];
      var w := Width(here);
      && AtToken(goal, source, index + w)
      && goal[index..index + w] == if TokenOf(here).Comment? then Blank(here[..w]) else here[..w]
  {
    var here := source[index..];
    var w := Width(here);
    Slices(source, index, w);
    Slices(goal, index, w);
    StripFront(here);
  }

  lemma StripFront(t: string)
    requires t != ""
    ensures Strip(t)[..Width(t)] == if TokenOf(t).Comment? then Blank(t[..Width(t)]) else t[..Width(t)]
    ensures Strip(t)[Width(t)..] == Strip(t[Width(t)..])
  {
  }

  lemma {:induction false} PassPlainRun(goal: string, source: string, index: nat, start: nat)
    requires AtToken(goal, source, index) && index <= start <= |source|
    requires forall k :: index <= k < start ==> TokenOf(source[k..]).Plain?
    ensures AtToken(goal, source, start)
    ensures forall k :: index <= k < start ==> goal[k] == source[k]
    decreases start - index
  {
    if index < start {
      PassToken(goal, source, index);
      assert goal[index] == goal[index..index + 1][0];
      PassPlainRun(goal, source, index + 1, start);
    }
  }

  method BlankOut(characters: array<char>, start: nat, end: nat)
    requires start <= end <= characters.Length
    modifies characters
    ensures forall k :: 0 <= k < start || end <= k < characters.Length ==> characters[k] == old(characters[k])
    ensures forall k :: start <= k < end ==> characters[k] == if old(characters[k]) == LF then LF else ' '
  {
    for offset := start to end
      invariant forall k :: 0 <= k < start || offset <= k < characters.Length ==> characters[k] == old(characters[k])
      invariant forall k :: start <= k < offset ==>
        characters[k] == if old(characters[k]) == LF then LF else ' '
    {
      if characters[offset] != LF {
        characters[offset] := ' ';
      }
    }
  }

  /** The end of the token at `start`: a block's is found by counting delimiters. */
  method TokenEnd(source: string, start: nat) returns (index: nat)
    requires start < |source| && !TokenOf(source[start..]).Plain?
    ensures index == start + Width(source[start..])
  {
    var here := source[start..];
    if TokenOf(here).Comment? && OpensBlock(here) {
      assert here[2..] == source[start + 2..];
      index := FindBlockEnd(source, start + 2);
    } else {
      index := start + TokenOf(here).width;
    }
  }

  /** Deals with the token found at `start`: a literal is passed over, a comment blanked. */
  method TreatToken(characters: array<char>, source: string, start: nat, ghost goal: string) returns (index: nat)
    requires AtToken(goal, source, start) && start < |source| && !TokenOf(source[start..]).Plain?
    requires characters.Length == |source|
    requires forall k :: start <= k < |source| ==> characters[k] == source[k]
    modifies characters
    ensures start < index && AtToken(goal, source, index)
    ensures forall k :: 0 <= k < start || index <= k < |source| ==> characters[k] == old(characters[k])
    ensures forall k :: start <= k < index ==> characters[k] == goal[k]
  {
    index := TokenEnd(source, start);
    PassToken(goal, source, start);
    GoalOfToken(goal, source, start, index);
    if !TokenOf(source[start..]).Literal? {
      BlankOut(characters, start, index);
    }
  }

  lemma GoalOfToken(goal: string, source: string, start: nat, index: nat)
    requires AtToken(goal, source, start) && start < |source|
    requires index == start + Width(source[start..])
    ensures forall k :: start <= k < index ==>
      goal[k] == if TokenOf(source[start..]).Comment? && source[k] != LF then ' ' else source[k]
  {
    PassToken(goal, source, start);
    var piece, here := goal[start..index], source[start..];
    assert forall k :: start <= k < index ==>
      goal[k] == piece[k - start] && source[k] == here[..Width(here)][k - start];
  }

  method StripHaskellComments(source: string) returns (characters: array<char>)
    ensures fresh(characters)
    ensures characters[..] == Strip(source)
  {
    characters := new char[|source|](i requires 0 <= i < |source| => source[i]);
    var index := 0;
    ghost var goal := Strip(source);
    assert source[0..] == source && goal[0..] == goal;
    while true
      invariant AtToken(goal, source, index) && characters.Length == |source|
      invariant forall k :: 0 <= k < index ==> characters[k] == goal[k]
      invariant forall k :: index <= k < |source| ==> characters[k] == source[k]
      decreases |source| - index
    {
      var start := Search(source, index);
      PassPlainRun(goal, source, index, start);
      if start == |source| {
        return;
      }
      index := TreatToken(characters, source, start, goal);
    }
  }

  // --- What stripping keeps ----------------------------------------------------------------

  /** Only spaces replace anything, and never a newline; so every newline stays where it was. */
  lemma {:induction false} StripPointwise(t: string)
    ensures forall k :: 0 <= k < |t| ==> Strip(t)[k] == t[k] || (Strip(t)[k] == ' ' && t[k] != LF)
    decreases |t|
  {
    if t == "" {
    } else {
      var w := Width(t);
      StripPointwise(t[w..]);
      var head := if TokenOf(t).Comment? then Blank(t[..w]) else t[..w];
      forall k | 0 <= k < |t|
        ensures Strip(t)[k] == t[k] || (Strip(t)[k] == ' ' && t[k] != LF)
      {
        if k < w {
          assert Strip(t)[k] == head[k];
        } else {
          assert Strip(t)[k] == Strip(t[w..])[k - w] && t[k] == t[w..][k - w];
        }
      }
    }
  }

  function CountNewlines(t: string): nat {
    if t == "" then 0 else (if t[|t| - 1] == LF then 1 else 0) + CountNewlines(t[..|t| - 1])
  }

  /** The line number reported for an offset of the stripped text. */
  function LineNumber(t: string, offset: nat): nat
    requires offset <= |t|
  {
    CountNewlines(t[..offset]) + 1
  }

  function NewlinesBefore(t: string, offset: nat): set<nat>
    requires offset <= |t|
  {
    set k: nat | k < offset && t[k] == '\n'
  }

  /** The line number is one more than the newlines in front of the offset. */
  lemma {:induction false} LineNumberCountsNewlines(t: string, offset: nat)
    requires offset <= |t|
    ensures LineNumber(t, offset) == 1 + |NewlinesBefore(t, offset)|
    decreases offset
  {
    if offset == 0 {
      assert NewlinesBefore(t, 0) == {};
    } else {
      var last := offset - 1;
      LineNumberCountsNewlines(t, last);
      assert t[..offset][..last] == t[..last];
      assert NewlinesBefore(t, offset) == NewlinesBefore(t, last) + if t[last] == '\n' then {last} else {};
    }
  }

  lemma {:induction false} SameNewlinesCountAlike(s: string, t: string)
    requires |s| == |t| && forall k :: 0 <= k < |s| ==> (s[k] == LF <==> t[k] == LF)
    ensures CountNewlines(s) == CountNewlines(t)
  {
    if s == "" {
    } else {
      SameNewlinesCountAlike(s[..|s| - 1], t[..|t| - 1]);
    }
  }

  lemma LineNumbersAreOriginal(source: string, offset: nat)
    requires offset <= |source|
    ensures LineNumber(Strip(source), offset) == LineNumber(source, offset)
  {
    StripPointwise(source);
    SameNewlinesCountAlike(Strip(source)[..offset], source[..offset]);
  }

  // --- Idempotence -------------------------------------------------------------------------

  lemma {:induction false} ClosingIsStable(t: string, more: string)
    requires Closing(t) > 0
    ensures Closing(t[..Closing(t)] + more) == Closing(t)
    decreases |t|
  {
    var w := Closing(t);
    var u := t[..w] + more;
    if t[0] == ESCAPE {
      assert u[2..] == t[2..][..w - 2] + more;
      ClosingIsStable(t[2..], more);
    } else if t[0] != QUOTE {
      assert u[1..] == t[1..][..w - 1] + more;
      ClosingIsStable(t[1..], more);
    }
  }

  lemma {:induction false} BlockEndsInBrace(t: string, depth: nat)
    requires depth > 0 && BlockWidth(t, depth) < |t|
    ensures var w := BlockWidth(t, depth); w > 0 && t[w - 1] == '}'
    decreases |t|
  {
    if OpensBlock(t) {
      BlockEndsInBrace(t[2..], depth + 1);
    } else if ClosesBlock(t) {
      if depth > 1 {
        BlockEndsInBrace(t[2..], depth - 1);
      }
    } else {
      BlockEndsInBrace(t[1..], depth);
    }
  }

  lemma {:induction false} LineEndsAtNewline(t: string)
    requires LineWidth(t) < |t|
    ensures t[LineWidth(t)] == LF
  {
    if t[0] != LF {
      LineEndsAtNewline(t[1..]);
    }
  }

  /** What follows a comment: the end, a newline, or anything behind a closing brace. */
  lemma CommentEnd(t: string)
    requires t != "" && TokenOf(t).Comment?
    ensures var w := Width(t); w == |t| || t[w] == LF || t[w - 1] == '}'
  {
    if Width(t) < |t| {
      if t[0] == '-' {
        LineEndsAtNewline(t[2..]);
      } else {
        BlockEndsInBrace(t[2..], 1);
      }
    }
  }

  /** A scan that finds no quote and crosses a whole comment finds none after it: a comment
      ends in `}` or before a newline, so its last backslash escapes no quote that follows. */
  lemma {:induction false} UnclosedAcross(comment: string, more: string)
    requires Closing(comment + more) == 0
    requires comment == "" || comment[|comment| - 1] != ESCAPE || more == "" || more[0] == LF
    ensures Closing(more) == 0
    decreases |comment|
  {
    var t := comment + more;
    if comment == "" {
      assert t == more;
    } else if t[0] == ESCAPE && |comment| == 1 {
      if more != "" {
        assert t[2..] == more[1..];
      }
    } else {
      var n := if t[0] == ESCAPE then 2 else 1;
      assert t[n..] == comment[n..] + more;
      UnclosedAcross(comment[n..], more);
    }
  }

  lemma {:induction false} UnclosedBehindBlanks(blank: string, more: string)
    requires forall k :: 0 <= k < |blank| ==> blank[k] != QUOTE && blank[k] != ESCAPE
    requires Closing(more) == 0
    ensures Closing(blank + more) == 0
    decreases |blank|
  {
    var t := blank + more;
    if blank == "" {
      assert t == more;
    } else {
      assert t[1..] == blank[1..] + more;
      UnclosedBehindBlanks(blank[1..], more);
    }
  }

  /** A quote left unmatched stays unmatched, although its failed scan ran across comments and
      literals that the stripper treats separately. */
  lemma {:induction false} UnclosedStaysUnclosed(t: string)
    requires Closing(t) == 0
    ensures Closing(Strip(t)) == 0
    decreases |t|, 1
  {
    if t == "" {
    } else if TokenOf(t).Comment? {
      assert t[0..] == t && Strip(t)[0..] == Strip(t);
      UnclosedThroughComment(t, 0);
    } else if TokenOf(t).Literal? {
      UnclosedThroughLiteral(t);
    } else {
      StripFront(t);
      assert Strip(t)[0] == Strip(t)[..1][0];
      if t[0] == ESCAPE && |t| > 1 {
        Slices(t, 1, 1);
        Slices(Strip(t), 1, 1);
        UnclosedBehindEscape(t[1..]);
      } else if |t| > 1 {
        UnclosedStaysUnclosed(t[1..]);
      }
    }
  }

  /** The same when the scan arrives with the front character escaped. */
  lemma {:induction false} UnclosedBehindEscape(t: string)
    requires t != "" && Closing(t[1..]) == 0
    ensures Closing(Strip(t)[1..]) == 0
    decreases |t|, 1
  {
    if TokenOf(t).Comment? {
      UnclosedThroughComment(t, 1);
    } else if TokenOf(t).Literal? {
      UnclosedThroughLiteral(t);
    } else {
      StripFront(t);
      UnclosedStaysUnclosed(t[1..]);
    }
  }

  lemma {:induction false} UnclosedThroughComment(t: string, skip: nat)
    requires t != "" && TokenOf(t).Comment?
    requires skip <= 1 && Closing(t[skip..]) == 0
    ensures Closing(Strip(t)[skip..]) == 0
    decreases |t|, 0
  {
    var w := Width(t);
    var blank := Blank(t[..w]);
    CutAt(t, skip, w);
    CommentEnd(t);
    UnclosedAcross(t[skip..w], t[w..]);
    UnclosedStaysUnclosed(t[w..]);
    CutFront(blank, Strip(t[w..]), skip);
    UnclosedBehindBlanks(blank[skip..], Strip(t[w..]));
  }

  /** A literal an unclosed scan runs into is a character literal, and holds no unescaped quote. */
  lemma {:induction false} UnclosedThroughLiteral(t: string)
    requires t != "" && TokenOf(t).Literal?
    requires Closing(t) == 0 || Closing(t[1..]) == 0
    ensures Closing(Strip(t)) == 0 && Closing(Strip(t)[1..]) == 0
    decreases |t|, 0
  {
    assert Closing(t[1..]) == 0;
    var w := Width(t);
    assert w == CharWidth(t);
    UnclosedChar(t, w);
    UnclosedStaysUnclosed(t[w..]);
    StripFront(t);
    ClosedOnlyBehindChar(Strip(t), t, w);
  }

  lemma UnclosedChar(t: string, w: nat)
    requires w == CharWidth(t) > 0 && Closing(t[1..]) == 0
    ensures Closing(t[w..]) == 0 && t[1] != QUOTE
  {
    Slices(t, 1, 1);
    Slices(t, 1, 2);
    Slices(t, 2, 1);
    Slices(t, 3, 0);
    if w == 4 {
      Slices(t, 3, 1);
      assert Closing(t[3..]) == 0;
    } else {
      assert Closing(t[2..]) == 0;
    }
  }

  lemma ClosedOnlyBehindChar(s: string, t: string, w: nat)
    requires w == CharWidth(t) > 0 && t[1] != QUOTE && w <= |s| && s[..w] == t[..w]
    requires Closing(s[w..]) == 0
    ensures Closing(s) == 0 && Closing(s[1..]) == 0
  {
    assert forall k :: 0 <= k < w ==> s[k] == s[..w][k] && t[k] == t[..w][k];
    Slices(s, 1, 1);
    Slices(s, 1, 2);
    Slices(s, 2, 1);
    if w == 4 {
      Slices(s, 3, 1);
      assert Closing(s[3..]) == 0;
    } else {
      assert Closing(s[2..]) == 0;
    }
  }

  /** Where the scanner found no token, it finds none in the stripped text either. */
  lemma PlainStaysPlain(t: string)
    requires t != "" && TokenOf(t).Plain?
    ensures TokenOf(Strip(t)).Plain?
  {
    var s, rest := Strip(t), t[1..];
    assert s == [t[0]] + Strip(rest) && s[1..] == Strip(rest);
    StripPointwise(t);
    if t[0] == QUOTE {
      UnclosedStaysUnclosed(rest);
    }
  }

  predicate IsBlank(t: string) {
    t == "" || ((t[0] == ' ' || t[0] == LF) && IsBlank(t[1..]))
  }

  lemma {:induction false} BlankIsBlank(t: string)
    ensures IsBlank(Blank(t))
  {
    if t == "" {
    } else {
      BlankIsBlank(t[1..]);
      assert Blank(t)[1..] == Blank(t[1..]);
    }
  }

  /** Blanks in front are no tokens: they are passed over one by one. */
  lemma PassBlank(blank: string, more: string)
    requires blank != "" && IsBlank(blank)
    ensures var t := blank + more;
      TokenOf(t).Plain? && t[0] == blank[0] && t[1..] == blank[1..] + more && t[..1] == [blank[0]]
  {
  }

  lemma {:induction false} StripBehindBlanks(blank: string, more: string)
    requires IsBlank(blank)
    ensures Strip(blank + more) == blank + Strip(more)
  {
    if blank == "" {
      assert blank + more == more && blank + Strip(more) == Strip(more);
    } else {
      StripBehindBlanks(blank[1..], more);
      PassBlank(blank, more);
      HeadAndTail(blank);
      Associate([blank[0]], blank[1..], Strip(more));
    }
  }

  lemma {:induction false} LiteralsBehindBlanks(blank: string, more: string, base: nat)
    requires IsBlank(blank)
    ensures Literals(blank + more, base) == Literals(more, base + |blank|)
    decreases blank
  {
    if blank == "" {
      assert blank + more == more;
    } else {
      LiteralsBehindBlanks(blank[1..], more, base + 1);
      PassBlank(blank, more);
      LiteralsBehindPlain(blank + more, base);
    }
  }

  lemma LiteralsBehindPlain(t: string, base: nat)
    requires t != "" && TokenOf(t).Plain?
    ensures Literals(t, base) == Literals(t[1..], base + 1)
  {
  }

  lemma {:induction false} CommentFreeBehindBlanks(blank: string, more: string)
    requires IsBlank(blank)
    ensures CommentFree(blank + more) == CommentFree(more)
  {
    if blank == "" {
      assert blank + more == more;
    } else {
      CommentFreeBehindBlanks(blank[1..], more);
      PassBlank(blank, more);
    }
  }

  /** Where the string and character literals begin and end. */
  function Literals(t: string, base: nat): seq<(nat, nat)>
    decreases |t|
  {
    if t == "" then []
    else
      var w := Width(t);
      (if TokenOf(t).Literal? then [(base, base + w)] else []) + Literals(t[w..], base + w)
  }

  predicate CommentFree(t: string)
    decreases |t|
  {
    t == "" || (!TokenOf(t).Comment? && CommentFree(t[Width(t)..]))
  }

  /** Scanning `s` finds the literals of `t`, no comment, and nothing to blank. */
  ghost predicate Settled(s: string, t: string, base: nat) {
    Strip(s) == s && Literals(s, base) == Literals(t, base) && CommentFree(s)
  }

  /** Scanning the stripped text finds the same literals at the same offsets and no comment;
      so a second pass changes nothing. */
  lemma StripIsIdempotent(t: string)
    ensures Strip(Strip(t)) == Strip(t)
    ensures Literals(Strip(t), 0) == Literals(t, 0)
    ensures CommentFree(Strip(t))
  {
    StripSettles(t, 0);
  }

  lemma {:induction false} StripSettles(t: string, base: nat)
    ensures Settled(Strip(t), t, base)
    decreases |t|
  {
    if t == "" {
    } else {
      StripSettles(t[Width(t)..], base + Width(t));
      SettledBehindFront(t, base);
    }
  }

  lemma SettledBehindFront(t: string, base: nat)
    requires t != "" && Settled(Strip(t[Width(t)..]), t[Width(t)..], base + Width(t))
    ensures Settled(Strip(t), t, base)
  {
    if TokenOf(t).Comment? {
      SettledBehindComment(t, Strip(t[Width(t)..]), base);
    } else {
      SettledBehindText(t, base);
    }
  }

  lemma SettledBehindComment(t: string, rest: string, base: nat)
    requires t != "" && TokenOf(t).Comment? && Settled(rest, t[Width(t)..], base + Width(t))
    ensures Settled(Blank(t[..Width(t)]) + rest, t, base)
  {
    var blank := Blank(t[..Width(t)]);
    BlankIsBlank(t[..Width(t)]);
    StripBehindBlanks(blank, rest);
    LiteralsBehindBlanks(blank, rest, base);
    CommentFreeBehindBlanks(blank, rest);
  }

  lemma SettledBehindText(t: string, base: nat)
    requires t != "" && !TokenOf(t).Comment?
    requires Settled(Strip(t[Width(t)..]), t[Width(t)..], base + Width(t))
    ensures Settled(Strip(t), t, base)
  {
    if TokenOf(t).Literal? {
      LiteralStaysLiteral(t);
    } else {
      PlainStaysPlain(t);
    }
    StripFront(t);
    SettledBehindToken(t, Strip(t), base);
  }

  lemma SettledBehindToken(t: string, s: string, base: nat)
    requires t != "" && s != "" && !TokenOf(t).Comment? && TokenOf(s) == TokenOf(t)
    requires var w := Width(t); w <= |s| && s[..w] == t[..w] && Settled(s[w..], t[w..], base + w)
    ensures Settled(s, t, base)
  {
    var w := Width(t);
    StripsToItself(s, w);
    ScanStep(s, base, w);
    ScanStep(t, base, w);
  }

  lemma StripsToItself(s: string, w: nat)
    requires s != "" && !TokenOf(s).Comment? && w == Width(s) && Strip(s[w..]) == s[w..]
    ensures Strip(s) == s
  {
    StripFront(s);
    EqualHalves(Strip(s), s, w);
  }

  /** What a scan finds at the front, and behind it. */
  lemma ScanStep(t: string, base: nat, w: nat)
    requires t != "" && !TokenOf(t).Comment? && w == Width(t)
    ensures Literals(t, base) == (if TokenOf(t).Literal? then [(base, base + w)] else []) + Literals(t[w..], base + w)
    ensures CommentFree(t) == CommentFree(t[w..])
  {
  }

  lemma LiteralStaysLiteral(t: string)
    requires t != "" && TokenOf(t).Literal?
    ensures TokenOf(Strip(t)) == TokenOf(t)
  {
    var w := Width(t);
    StripFront(t);
    if CharWidth(t) == 0 {
      ClosingIsStable(t[1..], Strip(t[w..]));
      FrontBehindHead(t, w);
      CutFront(t[..w], Strip(t[w..]), 1);
    }
    SameLiteral(t, Strip(t), w);
  }

  lemma SameLiteral(t: string, s: string, w: nat)
    requires t != "" && TokenOf(t) == Literal(w) && w <= |s| && s[..w] == t[..w]
    requires CharWidth(t) == 0 ==> Closing(s[1..]) == Closing(t[1..])
    ensures TokenOf(s) == TokenOf(t)
  {
    assert forall k :: 0 <= k < w ==> s[k] == s[..w][k] && t[k] == t[..w][k];
  }

  // --- The character-by-character automaton --------------------------------------------------

  datatype Mode = Code | Str | Escaped | Chr(left: nat) | Line | Block(depth: nat) | Second(depth: nat)

  /** The mode behind a character of code. Only entering a literal looks further ahead than one
      character: an opening quote or tick counts only if the expression for its literal matches. */
  function FromCode(t: string): Mode {
    if Widths(CHARACTER, t) != [] then Chr(if |t| > 1 && t[1] == '\\' then 3 else 2)
    else if Widths(STRING, t) != [] then Str
    else if "--" <= t then Line
    else if "{-" <= t then Second(1)
    else Code
  }

  function FromBlock(t: string, depth: nat): Mode {
    if "{-" <= t then Second(depth + 1) else if "-}" <= t && depth > 0 then Second(depth - 1) else Block(depth)
  }

  /** The mode after the front character. */
  function Next(t: string, mode: Mode): Mode
    requires t != ""
  {
    match mode
    case Code => FromCode(t)
    case Str => if t[0] == '"' then Code else if t[0] == '\\' then Escaped else Str
    case Escaped => Str
    case Chr(left) => if left <= 1 then Code else Chr(left - 1)
    case Line => if t[0] == '\n' then Code else Line
    case Block(depth) => FromBlock(t, depth)
    case Second(depth) => if depth == 0 then Code else Block(depth)
  }

  lemma NextInCode(t: string)
    requires t != ""
    ensures FromCode(t) ==
      if CharWidth(t) > 0 then Chr(CharWidth(t) - 1)
      else if t[0] == QUOTE && Closing(t[1..]) > 0 then Str
      else if |t| >= 2 && t[0] == '-' && t[1] == '-' then Line
      else if OpensBlock(t) then Second(1)
      else Code
  {
    CharacterMatches(t);
    StringMatches(t);
  }

  /** Whether the front character belongs to a comment, delimiters included. */
  predicate InComment(t: string, mode: Mode)
    requires t != ""
  {
    var next := Next(t, mode);
    mode.Line? || mode.Block? || mode.Second? || (mode.Code? && (next.Line? || next.Second?))
  }

  /** One pass over the characters: those of a comment become blank. */
  function Automaton(t: string, mode: Mode): string {
    if t == "" then ""
    else [if InComment(t, mode) && t[0] != LF then ' ' else t[0]] + Automaton(t[1..], Next(t, mode))
  }

  /** From this mode the automaton is back in `Code` behind `w` characters, which it kept. */
  ghost predicate Keeps(t: string, mode: Mode, w: nat)
    requires w <= |t|
  {
    Automaton(t, mode) == t[..w] + Automaton(t[w..], Code)
  }

  /** From this mode the automaton is back in `Code` behind `w` characters, which it blanked. */
  ghost predicate Blanks(t: string, mode: Mode, w: nat)
    requires w <= |t|
  {
    Automaton(t, mode) == Blank(t[..w]) + Automaton(t[w..], Code)
  }

  lemma InCodeAlready(t: string)
    ensures Keeps(t, Code, 0) && Blanks(t, Code, 0)
  {
    assert t[0..] == t && t[..0] == "" && Blank("") == "";
    assert "" + Automaton(t, Code) == Automaton(t, Code);
  }

  lemma KeepsOneMore(t: string, mode: Mode, w: nat)
    requires 1 <= w <= |t| && !InComment(t, mode)
    requires Keeps(t[1..], Next(t, mode), w - 1)
    ensures Keeps(t, mode, w)
  {
    FrontBehindHead(t, w);
    Associate([t[0]], t[1..][..w - 1], Automaton(t[w..], Code));
  }

  lemma BlanksOneMore(t: string, mode: Mode, w: nat)
    requires 1 <= w <= |t| && InComment(t, mode)
    requires Blanks(t[1..], Next(t, mode), w - 1)
    ensures Blanks(t, mode, w)
  {
    FrontBehindHead(t, w);
    BlankFront(t, w);
    Associate([if t[0] == LF then LF else ' '], Blank(t[1..][..w - 1]), Automaton(t[w..], Code));
  }

  lemma BlankFront(t: string, w: nat)
    requires 1 <= w <= |t|
    ensures Blank(t[..w]) == [if t[0] == LF then LF else ' '] + Blank(t[1..][..w - 1])
  {
  }

  /** The token-search stripper is the automaton. */
  lemma {:induction false} StripIsTheAutomaton(t: string)
    ensures Automaton(t, Code) == Strip(t)
    decreases |t|
  {
    if t == "" {
    } else {
      StripIsTheAutomaton(t[Width(t)..]);
      if TokenOf(t).Comment? {
        AutomatonPassesComment(t);
      } else {
        AutomatonPassesText(t);
      }
    }
  }

  lemma AutomatonPassesText(t: string)
    requires t != "" && !TokenOf(t).Comment?
    ensures Keeps(t, Code, Width(t))
  {
    NextInCode(t);
    if CharWidth(t) > 0 {
      ThroughChar(t[1..], CharWidth(t) - 1);
    } else if TokenOf(t).Literal? {
      ThroughString(t[1..]);
    } else {
      InCodeAlready(t[1..]);
    }
    KeepsOneMore(t, Code, Width(t));
  }

  lemma AutomatonPassesComment(t: string)
    requires t != "" && TokenOf(t).Comment?
    ensures Blanks(t, Code, Width(t))
  {
    NextInCode(t);
    Slices(t, 1, 1);
    if t[0] == '-' {
      ThroughLine(t[1..]);
    } else {
      ThroughBlock(t[2..], 1);
      BlanksOneMore(t[1..], Second(1), Width(t) - 1);
    }
    BlanksOneMore(t, Code, Width(t));
  }

  lemma {:induction false} ThroughChar(t: string, left: nat)
    requires 1 <= left <= |t|
    ensures Keeps(t, Chr(left), left)
  {
    if left > 1 {
      ThroughChar(t[1..], left - 1);
    } else {
      InCodeAlready(t[1..]);
    }
    KeepsOneMore(t, Chr(left), left);
  }

  lemma {:induction false} ThroughString(t: string)
    requires Closing(t) > 0
    ensures Keeps(t, Str, Closing(t))
    decreases |t|
  {
    if t[0] == QUOTE {
      InCodeAlready(t[1..]);
    } else if t[0] == ESCAPE {
      ThroughString(t[2..]);
      Slices(t, 1, 1);
      KeepsOneMore(t[1..], Escaped, Closing(t) - 1);
    } else {
      ThroughString(t[1..]);
    }
    KeepsOneMore(t, Str, Closing(t));
  }

  lemma {:induction false} ThroughLine(t: string)
    ensures Blanks(t, Line, LineWidth(t))
    decreases |t|
  {
    if t == "" {
      assert Blank(t[..0]) == "" && t[0..] == "";
    } else if t[0] != LF {
      ThroughLine(t[1..]);
      BlanksOneMore(t, Line, LineWidth(t));
    } else {
      NewlineLeavesLine(t);
    }
  }

  lemma NewlineLeavesLine(t: string)
    requires t != "" && t[0] == LF
    ensures Blanks(t, Line, 0)
  {
    NextInCode(t);
    assert TokenOf(t).Plain? && t[0..] == t && Blank(t[..0]) == "";
    assert Automaton(t, Line) == [LF] + Automaton(t[1..], Code);
    assert Automaton(t, Code) == [LF] + Automaton(t[1..], Code);
  }

  lemma {:induction false} ThroughBlock(t: string, depth: nat)
    requires depth > 0
    ensures Blanks(t, Block(depth), BlockWidth(t, depth))
    decreases |t|
  {
    if t == "" {
      NothingToBlank(depth);
    } else if OpensBlock(t) {
      ThroughBlock(t[2..], depth + 1);
      ThroughDelimiter(t, depth, depth + 1, 2 + BlockWidth(t[2..], depth + 1));
    } else if ClosesBlock(t) && depth > 1 {
      ThroughBlock(t[2..], depth - 1);
      ThroughDelimiter(t, depth, depth - 1, 2 + BlockWidth(t[2..], depth - 1));
    } else if ClosesBlock(t) {
      ThroughLastDelimiter(t);
    } else {
      ThroughBlock(t[1..], depth);
      ThroughCommentChar(t, depth, BlockWidth(t[1..], depth) + 1);
    }
  }

  lemma NothingToBlank(depth: nat)
    ensures Blanks("", Block(depth), 0)
  {
    assert Blank("") == "";
  }

  lemma ThroughCommentChar(t: string, depth: nat, w: nat)
    requires 1 <= w <= |t| && Next(t, Block(depth)) == Block(depth) && Blanks(t[1..], Block(depth), w - 1)
    ensures Blanks(t, Block(depth), w)
  {
    BlanksOneMore(t, Block(depth), w);
  }

  lemma ThroughDelimiter(t: string, depth: nat, inner: nat, w: nat)
    requires depth > 0 && inner > 0 && 2 <= w <= |t| && Next(t, Block(depth)) == Second(inner)
    requires Blanks(t[2..], Block(inner), w - 2)
    ensures Blanks(t, Block(depth), w)
  {
    Slices(t, 1, 1);
    BlanksOneMore(t[1..], Second(inner), w - 1);
    BlanksOneMore(t, Block(depth), w);
  }

  lemma ThroughLastDelimiter(t: string)
    requires ClosesBlock(t)
    ensures Blanks(t, Block(1), 2)
  {
    InCodeAlready(t[2..]);
    Slices(t, 1, 1);
    BlanksOneMore(t[1..], Second(0), 1);
    BlanksOneMore(t, Block(1), 2);
  }
}
