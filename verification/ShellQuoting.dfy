/**
 Quoting of runtime command lines (`internal/agent/render.go`).

 `ShellJoin` quotes an argument list for /bin/sh; `Split` is the repository's own
 tokenizer. Both are loops in the source; the methods below are those loops, and the
 functions beside them say what the loops compute. The two main results are the exact
 condition under which the tokenizer undoes the quoting, and that a POSIX shell always
 does.
 */
module ShellQuoting {

  import opened Basics

  // ----- Quoting -----

  /** Every single quote becomes '"'"' (close, a double-quoted quote, reopen). */
  function EscapeQuotes(s: string): string {
    if s == "" then ""
    else (if s[0] == '\'' then "'\"'\"'" else [s[0]]) + EscapeQuotes(s[1..])
  }

  function ShellArg(value: string): string {
    "'" + EscapeQuotes(value) + "'"
  }

  function Join(parts: seq<string>, separator: string): string {
    if parts == [] then ""
    else if |parts| == 1 then parts[0]
    else parts[0] + separator + Join(parts[1..], separator)
  }

  function Quoted(args: seq<string>): seq<string> {
    seq(|args|, i requires 0 <= i < |args| => ShellArg(args[i]))
  }

  method ShellJoin(args: seq<string>) returns (line: string)
    ensures line == Join(Quoted(args), " ")
  {
    var parts := [];
    for i := 0 to |args|
      invariant parts == Quoted(args[..i])
    {
      parts := parts + [ShellArg(args[i])];
      assert args[..i + 1] == args[..i] + [args[i]];
    }
    assert args[..|args|] == args;
    line := Join(parts, " ");
  }

  // ----- The repository's tokenizer -----

  datatype Quote = Unquoted | InQuote(mark: char)

  datatype Scanner = Scanner(out: seq<string>, current: string, quote: Quote, escaped: bool)

  const FRESH_SCANNER := Scanner([], "", Unquoted, false)

  function Flush(st: Scanner): Scanner {
    if st.current == "" then st else st.(out := st.out + [st.current], current := "")
  }

  function Write(st: Scanner, c: char): Scanner {
    st.(current := st.current + [c])
  }

  /** What the tokenizer does with one character. */
  function Advance(st: Scanner, c: char): Scanner {
    if st.escaped then Write(st, c).(escaped := false)
    else if c == '\\' then st.(escaped := true)
    else if st.quote.InQuote? then
      if c == st.quote.mark then st.(quote := Unquoted) else Write(st, c)
    else if c == '\'' || c == '"' then st.(quote := InQuote(c))
    else if c in " \t\n\r" then Flush(st)
    else Write(st, c)
  }

  function Feed(st: Scanner, s: string): Scanner
    decreases |s|
  {
    if s == "" then st else Feed(Advance(st, s[0]), s[1..])
  }

  function Finish(st: Scanner): seq<string> {
    Flush(if st.escaped then Write(st, '\\') else st).out
  }

  function SplitWords(value: string): seq<string> {
    Finish(Feed(FRESH_SCANNER, TrimSpace(value)))
  }

  lemma FeedSnoc(st: Scanner, s: string, c: char)
    ensures Feed(st, s + [c]) == Advance(Feed(st, s), c)
  {
    FeedConcat(st, s, [c]);
  }

  method SplitRuntimeArg(value: string) returns (out: seq<string>)
    ensures out == SplitWords(value)
  {
    var text := TrimSpace(value);
    if text == "" {
      return [];
    }
    out := [];
    var current, quote, escaped := "", Unquoted, false;
    for i := 0 to |text|
      invariant Scanner(out, current, quote, escaped) == Feed(FRESH_SCANNER, text[..i])
    {
      var c := text[i];
      FeedSnoc(FRESH_SCANNER, text[..i], c);
      assert text[..i + 1] == text[..i] + [c];
      if escaped {
        current := current + [c];
        escaped := false;
        continue;
      }
      if c == '\\' {
        escaped := true;
        continue;
      }
      if quote.InQuote? {
        if c == quote.mark {
          quote := Unquoted;
          continue;
        }
        current := current + [c];
        continue;
      }
      if c == '\'' || c == '"' {
        quote := InQuote(c);
        continue;
      }
      if c == ' ' || c == '\t' || c == '\n' || c == '\r' {
        if |current| > 0 {
          out := out + [current];
          current := "";
        }
        continue;
      }
      current := current + [c];
    }
    assert text[..|text|] == text;
    if escaped {
      current := current + ['\\'];
    }
    if |current| > 0 {
      out := out + [current];
    }
  }

  // ----- Feeding quoted text -----

  lemma {:induction false} FeedConcat(st: Scanner, a: string, b: string)
    ensures Feed(st, a + b) == Feed(Feed(st, a), b)
    decreases |a|
  {
    if a == "" {
      assert a + b == b;
    } else {
      FeedConcat(Advance(st, a[0]), a[1..], b);
      assert (a + b)[1..] == a[1..] + b;
    }
  }

  lemma {:induction false} FeedEscaped(st: Scanner, v: string)
    requires st.quote == InQuote('\'') && !st.escaped && '\\' !in v
    ensures Feed(st, EscapeQuotes(v)) == st.(current := st.current + v)
    decreases |v|
  {
    if v == "" {
      assert st.current + v == st.current;
    } else {
      var head := if v[0] == '\'' then "'\"'\"'" else [v[0]];
      FeedConcat(st, head, EscapeQuotes(v[1..]));
      if v[0] == '\'' {
        FeedSteps(st);
      } else {
        assert Feed(Advance(st, v[0]), "") == Write(st, v[0]);
      }
      FeedEscaped(Write(st, v[0]), v[1..]);
      assert st.current + [v[0]] + v[1..] == st.current + v;
    }
  }

  /** The five characters '"'"' put one quote into the current word and stay inside quotes. */
  lemma FeedSteps(st: Scanner)
    requires st.quote == InQuote('\'') && !st.escaped
    ensures Feed(st, "'\"'\"'") == Write(st, '\'')
  {
    var s1 := Advance(st, '\'');
    var s2 := Advance(s1, '"');
    var s3 := Advance(s2, '\'');
    var s4 := Advance(s3, '"');
    var s5 := Advance(s4, '\'');
    assert "'\"'\"'"[1..] == "\"'\"'";
    assert "\"'\"'"[1..] == "'\"'";
    assert "'\"'"[1..] == "\"'";
    assert "\"'"[1..] == "'";
    assert Feed(s4, "'") == Feed(s5, "") == s5;
    assert Feed(s3, "\"'") == s5;
    assert Feed(s2, "'\"'") == s5;
    assert Feed(s1, "\"'\"'") == s5;
  }

  lemma FeedShellArg(st: Scanner, v: string)
    requires st.quote == Unquoted && !st.escaped && '\\' !in v
    ensures Feed(st, ShellArg(v)) == st.(current := st.current + v)
  {
    var inner := st.(quote := InQuote('\''));
    FeedConcat(st, "'", EscapeQuotes(v) + "'");
    assert ShellArg(v) == "'" + (EscapeQuotes(v) + "'");
    assert Feed(st, "'") == Feed(inner, "") == inner;
    FeedConcat(inner, EscapeQuotes(v), "'");
    FeedEscaped(inner, v);
    var inside := inner.(current := st.current + v);
    assert Feed(inside, "'") == Feed(Advance(inside, '\''), "") == st.(current := st.current + v);
  }

  function NonEmpty(args: seq<string>): seq<string> {
    if args == [] then [] else (if args[0] == "" then [] else [args[0]]) + NonEmpty(args[1..])
  }

  lemma JoinedUnfold(args: seq<string>)
    requires |args| > 1
    ensures Join(Quoted(args), " ") == ShellArg(args[0]) + (" " + Join(Quoted(args[1..]), " "))
  {
    assert Quoted(args)[1..] == Quoted(args[1..]);
  }

  lemma FeedArgAndSpace(st: Scanner, v: string, rest: string)
    requires st.quote == Unquoted && !st.escaped && st.current == "" && '\\' !in v
    ensures Feed(st, ShellArg(v) + (" " + rest)) == Feed(Flush(st.(current := v)), rest)
  {
    FeedShellArg(st, v);
    assert st.current + v == v;
    FeedConcat(st, ShellArg(v), " " + rest);
    assert (" " + rest)[1..] == rest;
  }

  lemma {:induction false} FeedJoined(st: Scanner, args: seq<string>)
    requires st.quote == Unquoted && !st.escaped && st.current == "" && args != []
    requires forall a <- args :: '\\' !in a
    ensures var end := Feed(st, Join(Quoted(args), " "));
            !end.escaped && Finish(end) == st.out + NonEmpty(args)
    decreases |args|
  {
    assert '\\' !in args[0];
    if |args| == 1 {
      FeedOnly(st, args);
    } else {
      JoinedUnfold(args);
      FeedArgAndSpace(st, args[0], Join(Quoted(args[1..]), " "));
      FlushedArg(st, args);
      hide Feed, Quoted, Join, ShellArg, Finish, Flush, NonEmpty;
      FeedJoined(Flush(st.(current := args[0])), args[1..]);
    }
  }

  lemma FlushedArg(st: Scanner, args: seq<string>)
    requires st.quote == Unquoted && !st.escaped && st.current == "" && args != []
    ensures var next := Flush(st.(current := args[0]));
            && next.quote == Unquoted && !next.escaped && next.current == ""
            && next.out + NonEmpty(args[1..]) == st.out + NonEmpty(args)
  {
    var rest := NonEmpty(args[1..]);
    if args[0] == "" {
      assert NonEmpty(args) == [] + rest == rest;
    } else {
      assert NonEmpty(args) == [args[0]] + rest;
      Regrouped(st.out, [args[0]], rest);
    }
  }

  lemma Regrouped<T>(a: seq<T>, b: seq<T>, c: seq<T>)
    ensures a + b + c == a + (b + c)
  {
  }

  lemma FeedOnly(st: Scanner, args: seq<string>)
    requires st.quote == Unquoted && !st.escaped && st.current == "" && |args| == 1 && '\\' !in args[0]
    ensures var end := Feed(st, Join(Quoted(args), " "));
            !end.escaped && Finish(end) == st.out + NonEmpty(args)
  {
    FeedShellArg(st, args[0]);
    assert st.current + args[0] == args[0];
    assert Quoted(args) == [ShellArg(args[0])];
    assert NonEmpty(args[1..]) == [];
    hide Feed, ShellArg;
  }

  lemma {:induction false} JoinedEnds(args: seq<string>)
    requires args != []
    ensures var line := Join(Quoted(args), " ");
            |line| >= 2 && line[0] == '\'' && line[|line| - 1] == '\''
    decreases |args|
  {
    if |args| > 1 {
      assert Quoted(args)[1..] == Quoted(args[1..]);
      JoinedEnds(args[1..]);
    }
  }

  /** A quoted line begins and ends with a quote, so trimming leaves it alone. */
  lemma TrimJoined(args: seq<string>)
    ensures TrimSpace(Join(Quoted(args), " ")) == Join(Quoted(args), " ")
  {
    if args != [] {
      JoinedEnds(args);
    }
  }

  /** Without backslashes the tokenizer gives back every non-empty argument, in order. */
  lemma SplitOfJoinDropsEmpty(args: seq<string>)
    requires forall a <- args :: '\\' !in a
    ensures SplitWords(Join(Quoted(args), " ")) == NonEmpty(args)
  {
    TrimJoined(args);
    if args != [] {
      FeedJoined(FRESH_SCANNER, args);
      assert FRESH_SCANNER.out + NonEmpty(args) == NonEmpty(args);
    }
  }

  // ----- Lines written by hand -----

  const SEPARATORS := " \t\n\r"

  /** Characters that mean themselves outside quotes. */
  predicate PlainChar(c: char) {
    c != '\\' && c != '\'' && c != '"' && !IsSpace(c)
  }

  predicate PlainWord(w: string) {
    w != "" && forall c <- w :: PlainChar(c)
  }

  predicate Separates(sep: string) {
    sep != "" && forall c <- sep :: c in SEPARATORS
  }

  /** Words with any separators between them. */
  function Spaced(words: seq<string>, seps: seq<string>): string
    requires |seps| + 1 == |words|
  {
    if |words| == 1 then words[0] else words[0] + seps[0] + Spaced(words[1..], seps[1..])
  }

  lemma {:induction false} FeedPlain(st: Scanner, w: string)
    requires st.quote == Unquoted && !st.escaped && forall c <- w :: PlainChar(c)
    ensures Feed(st, w) == st.(current := st.current + w)
    decreases |w|
  {
    if w == "" {
      assert st.current + w == st.current;
    } else {
      assert PlainChar(w[0]) && forall c <- w[1..] :: c in w;
      FeedPlain(Write(st, w[0]), w[1..]);
      assert st.current + [w[0]] + w[1..] == st.current + w;
    }
  }

  lemma {:induction false} FeedSeparator(st: Scanner, sep: string)
    requires st.quote == Unquoted && !st.escaped && Separates(sep)
    ensures Feed(st, sep) == Flush(st)
    decreases |sep|
  {
    assert sep[0] in SEPARATORS;
    if |sep| > 1 {
      assert forall c <- sep[1..] :: c in sep;
      FeedSeparator(Flush(st), sep[1..]);
    } else {
      assert sep[1..] == "" && Feed(Flush(st), "") == Flush(st);
    }
  }

  lemma {:induction false} FeedSpaced(st: Scanner, words: seq<string>, seps: seq<string>)
    requires st.quote == Unquoted && !st.escaped && st.current == "" && |seps| + 1 == |words|
    requires (forall w <- words :: PlainWord(w)) && forall sep <- seps :: Separates(sep)
    ensures var end := Feed(st, Spaced(words, seps));
            !end.escaped && Finish(end) == st.out + words
    decreases |words|
  {
    assert PlainWord(words[0]);
    FeedPlain(st, words[0]);
    assert st.current + words[0] == words[0] != "";
    var mid := st.(current := words[0]);
    if |words| == 1 {
      assert words == [words[0]];
    } else {
      var rest := Spaced(words[1..], seps[1..]);
      FeedConcat(st, words[0] + seps[0], rest);
      FeedConcat(st, words[0], seps[0]);
      FeedSeparator(mid, seps[0]);
      FeedSpaced(Flush(mid), words[1..], seps[1..]);
      hide Feed;
      assert Flush(mid).out + words[1..] == st.out + words;
    }
  }

  lemma {:induction false} SpacedEnds(words: seq<string>, seps: seq<string>)
    requires |seps| + 1 == |words| && forall w <- words :: PlainWord(w)
    ensures var line := Spaced(words, seps);
            line != "" && PlainChar(line[0]) && PlainChar(line[|line| - 1])
    decreases |words|
  {
    assert PlainWord(words[0]) && words[0][0] in words[0] && words[0][|words[0]| - 1] in words[0];
    if |words| > 1 {
      SpacedEnds(words[1..], seps[1..]);
    }
  }

  /** Plain words come out as they are, whatever white space of the four kinds stands between them. */
  lemma SplitSeparates(words: seq<string>, seps: seq<string>)
    requires |seps| + 1 == |words|
    requires (forall w <- words :: PlainWord(w)) && forall sep <- seps :: Separates(sep)
    ensures SplitWords(Spaced(words, seps)) == words
  {
    SpacedEnds(words, seps);
    FeedSpaced(FRESH_SCANNER, words, seps);
    hide Feed;
    assert TrimSpace(Spaced(words, seps)) == Spaced(words, seps);
    assert FRESH_SCANNER.out + words == words;
  }

  /** Inside either kind of quotes everything but the mark and the backslash is taken as it is. */
  lemma {:induction false} FeedInside(st: Scanner, text: string)
    requires st.quote.InQuote? && !st.escaped && forall c <- text :: c != st.quote.mark && c != '\\'
    ensures Feed(st, text) == st.(current := st.current + text)
    decreases |text|
  {
    if text == "" {
      assert st.current + text == st.current;
    } else {
      assert text[0] in text && forall c <- text[1..] :: c in text;
      FeedInside(Write(st, text[0]), text[1..]);
      assert st.current + [text[0]] + text[1..] == st.current + text;
    }
  }

  lemma QuotesGroup(mark: char, text: string)
    requires (mark == '\'' || mark == '"') && text != "" && forall c <- text :: c != mark && c != '\\'
    ensures SplitWords([mark] + text + [mark]) == [text]
  {
    var st, line := FRESH_SCANNER, [mark] + text + [mark];
    var inside := st.(quote := InQuote(mark));
    FeedConcat(st, [mark], text + [mark]);
    assert Feed(st, [mark]) == Feed(inside, "") == inside;
    FeedConcat(inside, text, [mark]);
    FeedInside(inside, text);
    assert "" + text == text;
    var full := inside.(current := text);
    assert Feed(full, [mark]) == Feed(full.(quote := Unquoted), "") == full.(quote := Unquoted);
    assert [mark] + (text + [mark]) == line;
    assert TrimSpace(line) == line by {
      assert line[0] == mark && line[|line| - 1] == mark;
    }
  }

  /** A backslash outside quotes makes the next character plain. */
  lemma BackslashEscapes(st: Scanner, c: char)
    requires !st.escaped
    ensures Feed(st, ['\\', c]) == Write(st, c)
  {
    var mid := st.(escaped := true);
    assert ['\\', c][1..] == [c] && [c][1..] == "";
    assert Feed(mid, [c]) == Feed(Write(st, c), "");
  }

  // ----- Counting backslashes: why no list with a backslash survives -----

  function Backslashes(s: string): nat {
    if s == "" then 0 else (if s[0] == '\\' then 1 else 0) + Backslashes(s[1..])
  }

  function TotalBackslashes(words: seq<string>): nat {
    if words == [] then 0 else Backslashes(words[0]) + TotalBackslashes(words[1..])
  }

  lemma {:induction false} BackslashesConcat(a: string, b: string)
    ensures Backslashes(a + b) == Backslashes(a) + Backslashes(b)
    decreases |a|
  {
    if a == "" {
      assert a + b == b;
    } else {
      assert (a + b)[1..] == a[1..] + b;
      BackslashesConcat(a[1..], b);
    }
  }

  lemma {:induction false} TotalBackslashesSnoc(words: seq<string>, w: string)
    ensures TotalBackslashes(words + [w]) == TotalBackslashes(words) + Backslashes(w)
    decreases |words|
  {
    if words == [] {
      assert words + [w] == [w];
      assert TotalBackslashes([]) == 0;
    } else {
      assert (words + [w])[1..] == words[1..] + [w];
      TotalBackslashesSnoc(words[1..], w);
    }
  }

  /** Each backslash that comes out cost two that went in; a pending escape is the change. */
  function Weight(st: Scanner): nat {
    2 * TotalBackslashes(st.out) + 2 * Backslashes(st.current) + if st.escaped then 1 else 0
  }

  lemma AdvanceWeight(st: Scanner, c: char)
    ensures Weight(Advance(st, c)) <= Weight(st) + if c == '\\' then 1 else 0
  {
    BackslashesConcat(st.current, [c]);
    assert Backslashes([c]) == (if c == '\\' then 1 else 0) + Backslashes("");
    TotalBackslashesSnoc(st.out, st.current);
  }

  lemma {:induction false} FeedWeight(st: Scanner, s: string)
    ensures Weight(Feed(st, s)) <= Weight(st) + Backslashes(s)
    decreases |s|
  {
    if s != "" {
      AdvanceWeight(st, s[0]);
      FeedWeight(Advance(st, s[0]), s[1..]);
    }
  }

  lemma {:induction false} EscapeKeepsBackslashes(v: string)
    ensures Backslashes(EscapeQuotes(v)) == Backslashes(v)
    decreases |v|
  {
    if v != "" {
      var head := if v[0] == '\'' then "'\"'\"'" else [v[0]];
      EscapeKeepsBackslashes(v[1..]);
      BackslashesConcat(head, EscapeQuotes(v[1..]));
      if v[0] == '\'' {
        assert "'\"'\"'" == "'\"" + "'\"'";
        BackslashesConcat("'\"", "'\"'");
      }
    }
  }

  lemma {:induction false} JoinKeepsBackslashes(args: seq<string>)
    ensures Backslashes(Join(Quoted(args), " ")) == TotalBackslashes(args)
    decreases |args|
  {
    if args != [] {
      var v := args[0];
      EscapeKeepsBackslashes(v);
      BackslashesConcat("'" + EscapeQuotes(v), "'");
      BackslashesConcat("'", EscapeQuotes(v));
      assert Quoted(args)[1..] == Quoted(args[1..]);
      JoinKeepsBackslashes(args[1..]);
      if |args| > 1 {
        var rest := Join(Quoted(args[1..]), " ");
        assert Join(Quoted(args), " ") == ShellArg(v) + " " + rest;
        BackslashesConcat(ShellArg(v) + " ", rest);
        BackslashesConcat(ShellArg(v), " ");
      } else {
        assert TotalBackslashes(args[1..]) == 0;
      }
    }
  }

  /** Tokenizing a quoted line loses at least half of the backslashes. */
  lemma SplitHalvesBackslashes(args: seq<string>)
    requires args != []
    ensures 2 * TotalBackslashes(SplitWords(Join(Quoted(args), " "))) <= TotalBackslashes(args)
  {
    var line := Join(Quoted(args), " ");
    TrimJoined(args);
    JoinedEnds(args);
    JoinKeepsBackslashes(args);
    FeedWeight(FRESH_SCANNER, line);
    var end := Feed(FRESH_SCANNER, line);
    assert line == line[..|line| - 1] + ['\''];
    FeedSnoc(FRESH_SCANNER, line[..|line| - 1], '\'');
    assert !end.escaped;
    TotalBackslashesSnoc(end.out, end.current);
  }

  lemma {:induction false} SomeBackslash(words: seq<string>, k: nat)
    requires k < |words| && '\\' in words[k]
    ensures TotalBackslashes(words) > 0
    decreases |words|
  {
    if k == 0 {
      BackslashIn(words[0]);
    } else {
      SomeBackslash(words[1..], k - 1);
    }
  }

  lemma {:induction false} BackslashIn(s: string)
    requires '\\' in s
    ensures Backslashes(s) > 0
    decreases |s|
  {
    if s[0] != '\\' {
      BackslashIn(s[1..]);
    }
  }

  lemma {:induction false} NonEmptyShorter(args: seq<string>)
    ensures |NonEmpty(args)| <= |args|
    ensures NonEmpty(args) == args <==> "" !in args
    decreases |args|
  {
    if args != [] {
      NonEmptyShorter(args[1..]);
      if args[0] == "" {
        assert "" in args;
      } else {
        assert args == [args[0]] + args[1..];
      }
    }
  }

  /** The tokenizer undoes the quoting exactly when no argument is empty or holds a backslash. */
  lemma RoundTripExactly(args: seq<string>)
    ensures SplitWords(Join(Quoted(args), " ")) == args <==>
            forall a <- args :: a != "" && '\\' !in a
  {
    if forall a <- args :: '\\' !in a {
      SplitOfJoinDropsEmpty(args);
      NonEmptyShorter(args);
    } else {
      var k :| 0 <= k < |args| && '\\' in args[k];
      SomeBackslash(args, k);
      SplitHalvesBackslashes(args);
    }
  }

  // ----- A POSIX shell -----

  datatype Mode = Plain | Single | Double

  /** `word` is None between words; an empty quoted word is still a word. */
  datatype Reader = Reader(fields: seq<string>, word: Option<string>, mode: Mode)

  function Append(word: Option<string>, s: string): Option<string> {
    if word.None? then Some(s) else Some(word.value + s)
  }

  function EndWord(st: Reader): Reader {
    if st.word.None? then st else Reader(st.fields + [st.word.value], None, st.mode)
  }

  /**
   One character under POSIX.1-2017 Shell Command Language: single quotes keep every
   character (section 2.2.2), double quotes keep all but $ ` \ and " (section 2.2.3),
   blanks separate words. None stands for input outside this fragment, where expansion
   or an operator would begin.
   */
  function ReadChar(st: Reader, c: char): Option<Reader> {
    match st.mode
    case Single =>
      if c == '\'' then Some(st.(mode := Plain)) else Some(st.(word := Append(st.word, [c])))
    case Double =>
      if c == '"' then Some(st.(mode := Plain))
      else if c in "$`\\" then None
      else Some(st.(word := Append(st.word, [c])))
    case Plain =>
      if c == '\'' then Some(st.(word := Append(st.word, ""), mode := Single))
      else if c == '"' then Some(st.(word := Append(st.word, ""), mode := Double))
      else if c in " \t" then Some(EndWord(st))
      else if c in "\n$`\\|&;<>()*?[#~=%!{}" then None
      else Some(st.(word := Append(st.word, [c])))
  }

  function ReadAll(st: Reader, s: string): Option<Reader>
    decreases |s|
  {
    if s == "" then Some(st)
    else
      var next := ReadChar(st, s[0]);
      if next.None? then None else ReadAll(next.value, s[1..])
  }

  /** The words a POSIX shell sees, or None on an unclosed quote or unsupported text. */
  function PosixWords(s: string): Option<seq<string>> {
    var end := ReadAll(Reader([], None, Plain), s);
    if end.None? || end.value.mode != Plain then None else Some(EndWord(end.value).fields)
  }

  lemma {:induction false} ReadConcat(st: Reader, a: string, b: string)
    requires ReadAll(st, a).Some?
    ensures ReadAll(st, a + b) == ReadAll(ReadAll(st, a).value, b)
    decreases |a|
  {
    if a == "" {
      assert a + b == b;
    } else {
      assert (a + b)[1..] == a[1..] + b;
      ReadConcat(ReadChar(st, a[0]).value, a[1..], b);
    }
  }

  lemma ReadEscapedQuote(st: Reader)
    requires st.mode == Single && st.word.Some?
    ensures ReadAll(st, "'\"'\"'") == Some(st.(word := Some(st.word.value + "'")))
  {
    var s1 := st.(mode := Plain);
    var s2 := st.(mode := Double);
    var s3 := s2.(word := Some(st.word.value + "'"));
    var s4 := s3.(mode := Plain);
    var s5 := s3.(mode := Single);
    assert st.word.value + "" == st.word.value && s4.word.value + "" == s4.word.value;
    assert "'\"'\"'"[1..] == "\"'\"'";
    assert "\"'\"'"[1..] == "'\"'";
    assert "'\"'"[1..] == "\"'";
    assert "\"'"[1..] == "'";
    assert ReadChar(s4, '\'') == Some(s5);
    assert ReadAll(s4, "'") == ReadAll(s5, "") == Some(s5);
    assert ReadAll(s3, "\"'") == Some(s5);
    assert ReadAll(s2, "'\"'") == Some(s5);
    assert ReadChar(s1, '"') == Some(s2);
    assert ReadAll(s1, "\"'\"'") == Some(s5);
  }

  lemma {:induction false} ReadEscaped(st: Reader, v: string)
    requires st.mode == Single && st.word.Some?
    ensures ReadAll(st, EscapeQuotes(v)) == Some(st.(word := Some(st.word.value + v)))
    decreases |v|
  {
    if v == "" {
      assert st.word.value + v == st.word.value;
    } else {
      var head := if v[0] == '\'' then "'\"'\"'" else [v[0]];
      var next := st.(word := Some(st.word.value + [v[0]]));
      if v[0] == '\'' {
        ReadEscapedQuote(st);
      } else {
        assert ReadAll(next, "") == Some(next);
        assert head[1..] == "";
      }
      assert ReadAll(st, head) == Some(next);
      ReadConcat(st, head, EscapeQuotes(v[1..]));
      ReadEscaped(next, v[1..]);
      assert st.word.value + [v[0]] + v[1..] == st.word.value + v;
    }
  }

  lemma ReadShellArg(st: Reader, v: string)
    requires st.mode == Plain && st.word == None
    ensures ReadAll(st, ShellArg(v)) == Some(st.(word := Some(v)))
  {
    var inner := st.(word := Some(""), mode := Single);
    assert ReadAll(st, "'") == ReadAll(inner, "") == Some(inner);
    ReadConcat(st, "'", EscapeQuotes(v) + "'");
    assert ShellArg(v) == "'" + (EscapeQuotes(v) + "'");
    ReadEscaped(inner, v);
    assert "" + v == v;
    var inside := inner.(word := Some(v));
    ReadConcat(inner, EscapeQuotes(v), "'");
    assert ReadAll(inside, "'") == ReadAll(inside.(mode := Plain), "");
  }

  lemma {:induction false} ReadJoined(st: Reader, args: seq<string>)
    requires st.mode == Plain && st.word == None && args != []
    ensures var end := ReadAll(st, Join(Quoted(args), " "));
            end.Some? && end.value.mode == Plain && EndWord(end.value).fields == st.fields + args
    decreases |args|
  {
    ReadShellArg(st, args[0]);
    var after := st.(word := Some(args[0]));
    if |args| > 1 {
      assert Quoted(args)[1..] == Quoted(args[1..]);
      var rest := Join(Quoted(args[1..]), " ");
      assert Join(Quoted(args), " ") == ShellArg(args[0]) + (" " + rest);
      ReadConcat(st, ShellArg(args[0]), " " + rest);
      var next := EndWord(after);
      assert ReadAll(after, " ") == ReadAll(next, "") == Some(next);
      ReadConcat(after, " ", rest);
      ReadJoined(next, args[1..]);
      assert next.fields + args[1..] == st.fields + args;
    }
  }

  /** A POSIX shell reads a quoted line back as exactly the arguments, empty ones included. */
  lemma PosixReadsBack(args: seq<string>)
    ensures PosixWords(Join(Quoted(args), " ")) == Some(args)
  {
    if args != [] {
      ReadJoined(Reader([], None, Plain), args);
      assert [] + args == args;
    }
  }
}
