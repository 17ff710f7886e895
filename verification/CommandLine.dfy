/** How Python renders an argument list for Windows, and how a Windows program reads it back. */
module CommandLine {
  import opened Seqs
  import opened Wrappers

  function Backslashes(n: nat): (s: string)
    ensures |s| == n
  {
    seq(n, i => '\\')
  }

  /** An argument's characters behind `held` backslashes: they are doubled only before a quote,
      written or closing. */
  function Escape(arg: string, held: nat, quoted: bool): string
    decreases |arg|
  {
    if arg == "" then Backslashes(if quoted then 2 * held else held)
    else if arg[0] == '\\' then Escape(arg[1..], held + 1, quoted)
    else if arg[0] == '"' then Backslashes(2 * held) + "\\\"" + Escape(arg[1..], 0, quoted)
    else Backslashes(held) + [arg[0]] + Escape(arg[1..], 0, quoted)
  }

  function Quote(arg: string): string {
    if ' ' in arg || '\t' in arg || arg == "" then "\"" + Escape(arg, 0, true) + "\""
    else Escape(arg, 0, false)
  }

  /** The argument list as CreateProcess receives it. */
  function Rendered(args: seq<string>): string {
    if args == [] then ""
    else if |args| == 1 then Quote(args[0])
    else Quote(args[0]) + " " + Rendered(args[1..])
  }

  function RenderedLength(args: seq<string>): nat {
    |Rendered(args)|
  }

  /** What each argument adds, its separator included. */
  function Cost(args: seq<string>): nat {
    if args == [] then 0 else |Quote(args[0])| + 1 + Cost(args[1..])
  }

  lemma {:induction false} LengthIsCost(args: seq<string>)
    requires args != []
    ensures RenderedLength(args) + 1 == Cost(args)
  {
    if |args| == 1 {
      assert args[1..] == [];
    } else {
      LengthIsCost(args[1..]);
    }
  }

  lemma {:induction false} CostOfTwo(a: seq<string>, b: seq<string>)
    ensures Cost(a + b) == Cost(a) + Cost(b)
  {
    if a == [] {
      assert a + b == b;
    } else {
      assert (a + b)[1..] == a[1..] + b;
      CostOfTwo(a[1..], b);
    }
  }

  // --- What a program is given -----------------------------------------------------------------

  /** The Microsoft C runtime's reading, character by character: `quoted` inside quotes, behind `held`
      backslashes, with the argument read so far, if one has begun. Backslashes are halved before a
      quote, which counts as a character if one is left over; elsewhere they stand for themselves. */
  function Reads(t: string, quoted: bool, held: nat, arg: Option<string>): seq<string>
    decreases |t|
  {
    var value := if arg.Some? then arg.value else "";
    if t == "" then if arg.None? then [] else [value + Backslashes(held)]
    else if t[0] == '\\' then Reads(t[1..], quoted, held + 1, Some(value))
    else if t[0] == '"' then
      if held % 2 == 1 then Reads(t[1..], quoted, 0, Some(value + Backslashes(held / 2) + "\""))
      else Reads(t[1..], !quoted, 0, Some(value + Backslashes(held / 2)))
    else if (t[0] == ' ' || t[0] == '\t') && !quoted then
      if arg.None? then Reads(t[1..], false, 0, None)
      else [value + Backslashes(held)] + Reads(t[1..], false, 0, None)
    else Reads(t[1..], quoted, 0, Some(value + Backslashes(held) + [t[0]]))
  }

  lemma {:induction false} ReadsBackslashes(n: nat, t: string, quoted: bool, held: nat, value: string)
    ensures Reads(Backslashes(n) + t, quoted, held, Some(value)) == Reads(t, quoted, held + n, Some(value))
  {
    if n == 0 {
      assert Backslashes(0) + t == t;
    } else {
      assert (Backslashes(n) + t)[1..] == Backslashes(n - 1) + t;
      ReadsBackslashes(n - 1, t, quoted, held + 1, value);
    }
  }

  /** What may stand behind an escaped argument: the closing quote, a separator, or nothing. */
  predicate Closes(quoted: bool, rest: string) {
    if quoted then rest != "" && rest[0] == '"' else rest == "" || rest[0] == ' '
  }

  predicate NoBlank(arg: string) {
    forall k :: 0 <= k < |arg| ==> arg[k] != ' ' && arg[k] != '\t'
  }

  lemma {:induction false} EscapedReadsBack(arg: string, held: nat, quoted: bool, value: string, rest: string)
    requires Closes(quoted, rest) && (quoted || NoBlank(arg))
    ensures Reads(Escape(arg, held, quoted) + rest, quoted, 0, Some(value))
         == Reads(rest, quoted, 0, Some(value + Backslashes(held) + arg))
    decreases |arg|
  {
    if arg == "" {
      EndReadsBack(held, quoted, value, rest);
      assert value + Backslashes(held) + "" == value + Backslashes(held);
    } else {
      var c, more := arg[0], arg[1..];
      HeadAndTail(arg);
      if c == '\\' {
        EscapedReadsBack(more, held + 1, quoted, value, rest);
        assert Backslashes(held + 1) + more == Backslashes(held) + arg;
        Associate(value, Backslashes(held + 1), more);
        Associate(value, Backslashes(held), arg);
      } else if c == '"' {
        QuoteReadsBack(held, quoted, value, Escape(more, 0, quoted) + rest);
        Associate(Backslashes(2 * held) + "\\\"", Escape(more, 0, quoted), rest);
        EscapedReadsBack(more, 0, quoted, value + Backslashes(held) + "\"", rest);
        assert value + Backslashes(held) + "\"" + Backslashes(0) + more == value + Backslashes(held) + arg;
      } else {
        PlainReadsBack(c, held, quoted, value, Escape(more, 0, quoted) + rest);
        Associate(Backslashes(held) + [c], Escape(more, 0, quoted), rest);
        EscapedReadsBack(more, 0, quoted, value + Backslashes(held) + [c], rest);
        assert value + Backslashes(held) + [c] + Backslashes(0) + more == value + Backslashes(held) + arg;
      }
    }
  }

  lemma EndReadsBack(held: nat, quoted: bool, value: string, rest: string)
    requires Closes(quoted, rest)
    ensures Reads(Escape("", held, quoted) + rest, quoted, 0, Some(value))
         == Reads(rest, quoted, 0, Some(value + Backslashes(held)))
  {
    ReadsBackslashes(if quoted then 2 * held else held, rest, quoted, 0, value);
    assert value + Backslashes(held) + Backslashes(0) == value + Backslashes(held);
  }

  lemma QuoteReadsBack(held: nat, quoted: bool, value: string, t: string)
    ensures Reads(Backslashes(2 * held) + "\\\"" + t, quoted, 0, Some(value))
         == Reads(t, quoted, 0, Some(value + Backslashes(held) + "\""))
  {
    ReadsBackslashes(2 * held + 1, "\"" + t, quoted, 0, value);
    assert Backslashes(2 * held) + "\\\"" + t == Backslashes(2 * held + 1) + ("\"" + t);
    assert ("\"" + t)[1..] == t;
  }

  lemma PlainReadsBack(c: char, held: nat, quoted: bool, value: string, t: string)
    requires c != '\\' && c != '"' && (quoted || (c != ' ' && c != '\t'))
    ensures Reads(Backslashes(held) + [c] + t, quoted, 0, Some(value))
         == Reads(t, quoted, 0, Some(value + Backslashes(held) + [c]))
  {
    ReadsBackslashes(held, [c] + t, quoted, 0, value);
    assert Backslashes(held) + [c] + t == Backslashes(held) + ([c] + t);
    assert ([c] + t)[1..] == t;
  }

  lemma QuotedReadsBack(arg: string, rest: string)
    requires Closes(false, rest)
    ensures Reads(Quote(arg) + rest, false, 0, None) == Reads(rest, false, 0, Some(arg))
  {
    if ' ' in arg || '\t' in arg || arg == "" {
      BetweenQuotesReadsBack(arg, rest);
    } else {
      EscapedReadsBack(arg, 0, false, "", rest);
      BeginsUnquoted(arg, rest);
      assert "" + Backslashes(0) + arg == arg;
    }
  }

  lemma BetweenQuotesReadsBack(arg: string, rest: string)
    ensures Reads("\"" + Escape(arg, 0, true) + "\"" + rest, false, 0, None) == Reads(rest, false, 0, Some(arg))
  {
    var closing := "\"" + rest;
    var inner := Escape(arg, 0, true) + closing;
    assert "\"" + Escape(arg, 0, true) + "\"" + rest == "\"" + inner;
    assert ("\"" + inner)[1..] == inner && closing[1..] == rest;
    EscapedReadsBack(arg, 0, true, "", closing);
    assert "" + Backslashes(0) == "" && "" + Backslashes(0) + arg == arg && arg + Backslashes(0) == arg;
  }

  /** An argument begins with its first character that is no separator. */
  lemma BeginsUnquoted(arg: string, rest: string)
    requires arg != "" && NoBlank(arg)
    ensures var t := Escape(arg, 0, false) + rest; Reads(t, false, 0, None) == Reads(t, false, 0, Some(""))
  {
    var t := Escape(arg, 0, false) + rest;
    EscapeBegins(arg, 0);
    assert t[0] == Escape(arg, 0, false)[0];
  }

  lemma {:induction false} EscapeBegins(arg: string, held: nat)
    requires NoBlank(arg) && (arg != "" || held > 0)
    ensures var e := Escape(arg, held, false); e != "" && e[0] != ' ' && e[0] != '\t'
    decreases |arg|
  {
    if arg == "" {
    } else if arg[0] == '\\' {
      EscapeBegins(arg[1..], held + 1);
    }
  }

  /** A Windows program is given exactly the arguments that were rendered. */
  lemma {:induction false} RenderedReadsBack(args: seq<string>)
    ensures Reads(Rendered(args), false, 0, None) == args
  {
    if args == [] {
    } else if |args| == 1 {
      QuotedReadsBack(args[0], "");
      assert Quote(args[0]) + "" == Quote(args[0]);
      assert args[0] + Backslashes(0) == args[0];
    } else {
      var rest := " " + Rendered(args[1..]);
      QuotedReadsBack(args[0], rest);
      Associate(Quote(args[0]), " ", Rendered(args[1..]));
      RenderedReadsBack(args[1..]);
      assert rest[1..] == Rendered(args[1..]);
      assert args[0] + Backslashes(0) == args[0];
      HeadAndTail(args);
    }
  }

  /** One with a blank, and nothing to escape, stands between quotes; so does the empty one. */
  lemma BlankIsQuoted(arg: string)
    requires arg == "" || ' ' in arg || '\t' in arg
    requires '"' !in arg && '\\' !in arg
    ensures Quote(arg) == "\"" + arg + "\""
  {
    NothingToEscape(arg);
  }

  lemma {:induction false} NothingToEscape(arg: string)
    requires '"' !in arg && '\\' !in arg
    ensures Escape(arg, 0, true) == arg
    decreases |arg|
  {
    if arg == "" {
    } else {
      HeadAndTail(arg);
      NothingToEscape(arg[1..]);
      assert Backslashes(0) + [arg[0]] + arg[1..] == arg;
    }
  }

  predicate IsPlain(arg: string) {
    arg != "" && NoBlank(arg) && '"' !in arg
  }

  /** An argument with nothing to quote is rendered as it is. */
  lemma PlainIsRenderedAsItIs(arg: string)
    requires IsPlain(arg)
    ensures Quote(arg) == arg
  {
    PlainIsEscapedAsItIs(arg, 0);
    assert Backslashes(0) + arg == arg;
  }

  lemma {:induction false} PlainIsEscapedAsItIs(arg: string, held: nat)
    requires '"' !in arg
    ensures Escape(arg, held, false) == Backslashes(held) + arg
    decreases |arg|
  {
    if arg == "" {
      assert Backslashes(held) + "" == Backslashes(held);
    } else {
      HeadAndTail(arg);
      if arg[0] == '\\' {
        PlainIsEscapedAsItIs(arg[1..], held + 1);
        assert Backslashes(held + 1) + arg[1..] == Backslashes(held) + arg;
      } else {
        PlainIsEscapedAsItIs(arg[1..], 0);
        assert Backslashes(0) + arg[1..] == arg[1..];
        assert Backslashes(held) + [arg[0]] + arg[1..] == Backslashes(held) + arg;
      }
    }
  }
}
