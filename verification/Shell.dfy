/** Printing a command line for a shell, against how a POSIX shell reads one
    (POSIX.1-2017, Shell Command Language, sections 2.2 and 2.3). */
module Shell {
  import opened Options

  // ---- what the program prints ----

  /** Each ' becomes '\'' : the quotes are closed, an escaped one follows, they are opened again. */
  function Escaped(s: string): string {
    if s == "" then ""
    else (if s[0] == '\'' then "'\\''" else [s[0]]) + Escaped(s[1..])
  }

  function ShellQuote(s: string): string {
    "'" + Escaped(s) + "'"
  }

  function Join(parts: seq<string>): string {
    if parts == [] then "" else if |parts| == 1 then parts[0] else parts[0] + " " + Join(parts[1..])
  }

  function Quoted(args: seq<string>): (q: seq<string>)
    ensures |q| == |args| && forall i :: 0 <= i < |args| ==> q[i] == ShellQuote(args[i])
  {
    seq(|args|, i requires 0 <= i < |args| => ShellQuote(args[i]))
  }

  datatype Command = Command(program: string, args: seq<string>)

  // ---- how a shell reads it ----

  datatype Mode = Plain | Single | Double

  const NUL := '\0'

  predicate Blank(c: char) {
    c == ' ' || c == '\t'
  }

  /** Characters that, unquoted, are or may be more than themselves: operators, expansions, patterns, comments,
      assignments, reserved words. */
  predicate Special(c: char) {
    c in "|&;<>()$`*?[#~=%!{}\n" || c == NUL
  }

  function Ended(word: Option<string>, done: seq<string>): seq<string> {
    if word.Some? then done + [word.value] else done
  }

  function Extended(word: Option<string>, c: char): Option<string> {
    Some(Opened(word) + [c])
  }

  function Opened(word: Option<string>): string {
    if word.Some? then word.value else ""
  }

  /** Token recognition and quote removal. None when the line is not just words: an unquoted special character,
      an expansion in double quotes, an open quote, or a NUL. A word that is begun may be empty. */
  function Words(s: string, mode: Mode, word: Option<string>, done: seq<string>): Option<seq<string>>
    decreases |s|
  {
    if s == "" then (if mode.Plain? then Some(Ended(word, done)) else None)
    else
      var c, rest := s[0], s[1..];
      if c == NUL then None
      else match mode {
        case Single =>
          if c == '\'' then Words(rest, Plain, word, done) else Words(rest, Single, Extended(word, c), done)
        case Double =>
          if c == '"' then Words(rest, Plain, word, done)
          else if c == '$' || c == '`' then None
          else if c == '\\' && rest != "" && rest[0] == '\n' then Words(rest[1..], Double, word, done)
          else if c == '\\' && rest != "" && rest[0] in "$`\"\\" then Words(rest[1..], Double, Extended(word, rest[0]), done)
          else Words(rest, Double, Extended(word, c), done)
        case Plain =>
          if Blank(c) then Words(rest, Plain, None, Ended(word, done))
          else if c == '\'' then Words(rest, Single, Some(Opened(word)), done)
          else if c == '"' then Words(rest, Double, Some(Opened(word)), done)
          else if c == '\\' then
            (if rest == "" || rest[0] == NUL then None
             else if rest[0] == '\n' then Words(rest[1..], Plain, word, done)
             else Words(rest[1..], Plain, Extended(word, rest[0]), done))
          else if Special(c) then None
          else Words(rest, Plain, Extended(word, c), done)
      }
  }

  function Read(line: string): Option<seq<string>> {
    Words(line, Plain, None, [])
  }

  // ---- they agree ----

  predicate NulFree(s: string) {
    NUL !in s
  }

  lemma {:induction false} ReadsEscaped(a: string, tail: string, w: string, done: seq<string>)
    requires NulFree(a)
    ensures Words(Escaped(a) + "'" + tail, Single, Some(w), done) == Words(tail, Plain, Some(w + a), done)
  {
    if a == "" {
      assert Escaped(a) + "'" + tail == "'" + tail;
      assert w + a == w;
    } else {
      var rest := Escaped(a[1..]) + "'" + tail;
      assert NulFree(a[1..]);
      ReadsEscaped(a[1..], tail, w + [a[0]], done);
      assert w + [a[0]] + a[1..] == w + a;
      if a[0] == '\'' {
        assert Escaped(a) + "'" + tail == "'\\''" + rest;
        ReadsQuote(rest, w, done);
      } else {
        assert Escaped(a) + "'" + tail == [a[0]] + rest;
        assert ([a[0]] + rest)[1..] == rest;
      }
    }
  }

  lemma ReadsQuote(rest: string, w: string, done: seq<string>)
    ensures Words("'\\''" + rest, Single, Some(w), done) == Words(rest, Single, Some(w + ['\'']), done)
  {
    var s := "'\\''" + rest;
    assert s[1..] == "\\''" + rest;
    assert s[1..][1..] == "''" + rest;
    assert s[1..][1..][1..] == "'" + rest;
    assert s[1..][1..][1..][1..] == rest;
    assert Words(s, Single, Some(w), done) == Words(s[1..], Plain, Some(w), done);
    assert Words(s[1..], Plain, Some(w), done) == Words("'" + rest, Plain, Some(w + ['\'']), done);
    assert ("'" + rest)[1..] == rest;
  }

  lemma ReadsArg(a: string, tail: string, w: Option<string>, done: seq<string>)
    requires NulFree(a)
    ensures Words(" " + ShellQuote(a) + tail, Plain, w, done) == Words(tail, Plain, Some(a), Ended(w, done))
  {
    var s := " " + ShellQuote(a) + tail;
    assert s[1..] == ShellQuote(a) + tail;
    assert (ShellQuote(a) + tail)[1..] == Escaped(a) + "'" + tail;
    ReadsEscaped(a, tail, "", Ended(w, done));
    assert "" + a == a;
  }

  function Tail(args: seq<string>): string {
    if args == [] then "" else " " + ShellQuote(args[0]) + Tail(args[1..])
  }

  lemma {:induction false} JoinIsTail(first: string, args: seq<string>)
    ensures Join([first] + Quoted(args)) == first + Tail(args)
    decreases |args|
  {
    var parts := [first] + Quoted(args);
    if args == [] {
      assert first + Tail(args) == first;
    } else {
      assert parts[1..] == [ShellQuote(args[0])] + Quoted(args[1..]);
      JoinIsTail(ShellQuote(args[0]), args[1..]);
      assert first + " " + (ShellQuote(args[0]) + Tail(args[1..])) == first + (" " + ShellQuote(args[0]) + Tail(args[1..]));
    }
  }

  lemma {:induction false} ReadsTail(args: seq<string>, w: string, done: seq<string>)
    requires forall a <- args :: NulFree(a)
    ensures Words(Tail(args), Plain, Some(w), done) == Some(done + [w] + args)
  {
    if args == [] {
      assert done + [w] + args == done + [w];
    } else {
      ReadsArg(args[0], Tail(args[1..]), Some(w), done);
      ReadsTail(args[1..], args[0], done + [w]);
      assert done + [w] + [args[0]] + args[1..] == done + [w] + args;
    }
  }

  predicate Bare(c: char) {
    !Blank(c) && !Special(c) && c != '\'' && c != '"' && c != '\\'
  }

  lemma {:induction false} ReadsBare(b: string, tail: string, w: string, done: seq<string>)
    requires forall c <- b :: Bare(c)
    ensures Words(b + tail, Plain, Some(w), done) == Words(tail, Plain, Some(w + b), done)
  {
    if b == "" {
      assert b + tail == tail && w + b == w;
    } else {
      assert Bare(b[0]) && (b + tail)[0] == b[0] && (b + tail)[1..] == b[1..] + tail;
      ReadsBare(b[1..], tail, w + [b[0]], done);
      assert w + [b[0]] + b[1..] == w + b;
    }
  }

  lemma ReadsName(tail: string)
    ensures Read("claude" + tail) == Words(tail, Plain, Some("claude"), [])
  {
    var s := "claude" + tail;
    assert s[1..] == "laude" + tail;
    assert Read(s) == Words("laude" + tail, Plain, Some("" + ['c']), []);
    ReadsBare("laude", tail, "" + ['c'], []);
    assert "" + ['c'] + "laude" == "claude";
  }

  lemma {:induction false} NulIsNoWord(s: string, mode: Mode, word: Option<string>, done: seq<string>)
    requires !NulFree(s)
    ensures Words(s, mode, word, done) == None
    decreases |s|
  {
    if s[0] != NUL {
      var rest := s[1..];
      assert !NulFree(rest);
      forall w, d, m: Mode ensures Words(rest, m, w, d) == None {
        NulIsNoWord(rest, m, w, d);
      }
      if rest[0] != NUL {
        assert !NulFree(rest[1..]);
        forall w, d, m: Mode ensures Words(rest[1..], m, w, d) == None {
          NulIsNoWord(rest[1..], m, w, d);
        }
      }
    }
  }

  lemma {:induction false} NulStays(a: string)
    ensures NulFree(Escaped(a)) <==> NulFree(a)
  {
    if a != "" {
      NulStays(a[1..]);
      assert a == [a[0]] + a[1..];
    }
  }

  lemma {:induction false} TailNulFree(args: seq<string>)
    ensures NulFree(Tail(args)) <==> forall a <- args :: NulFree(a)
  {
    if args != [] {
      NulStays(args[0]);
      TailNulFree(args[1..]);
      assert args == [args[0]] + args[1..];
    }
  }

  /** Whatever the arguments, the shell reads back exactly them, as long as none holds a NUL (which no argument of
      a program can). */
  lemma CommandLineRoundTrips(args: seq<string>)
    ensures Read(Join(["claude"] + Quoted(args))) == Some(["claude"] + args) <==> forall a <- args :: NulFree(a)
  {
    JoinIsTail("claude", args);
    ReadsName(Tail(args));
    TailNulFree(args);
    if forall a <- args :: NulFree(a) {
      ReadsTail(args, "claude", []);
      assert [] + ["claude"] + args == ["claude"] + args;
    } else {
      NulIsNoWord(Tail(args), Plain, Some("claude"), []);
    }
  }

  /** The command that starts claude: through the user's shell when there is one. */
  method ViaShell(shell: string, args: seq<string>) returns (cmd: Command)
    ensures shell == "" ==> cmd == Command("claude", args)
    ensures shell != "" ==> cmd.program == shell && |cmd.args| == 3 && cmd.args[..2] == ["-i", "-c"]
    ensures shell != "" && (forall a <- args :: NulFree(a)) ==> Read(cmd.args[2]) == Some(["claude"] + args)
  {
    if shell == "" {
      return Command("claude", args);
    }
    var parts := ["claude"];
    for i := 0 to |args|
      invariant parts == ["claude"] + Quoted(args[..i])
    {
      parts := parts + [ShellQuote(args[i])];
      assert Quoted(args[..i + 1]) == Quoted(args[..i]) + [ShellQuote(args[i])];
    }
    assert args[..|args|] == args;
    CommandLineRoundTrips(args);
    cmd := Command(shell, ["-i", "-c", Join(parts)]);
  }
}
