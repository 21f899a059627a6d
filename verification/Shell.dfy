/** Rendering a command for a POSIX shell, and what one pass of the shell's tokeniser makes of it
    (sections 2.2 and 2.3 of the POSIX.1-2017 Shell Command Language). */
module Shell {
  import opened Wrappers
  import opened Text

  datatype CommandSpec = CommandSpec(program: string, args: seq<string>)

  // ----- rendering -----

  /** Every single quote is closed, double-quoted and reopened. */
  function Escape(v: string): string {
    if v == [] then [] else EscapeChar(v[0]) + Escape(v[1..])
  }

  function EscapeChar(c: char): string {
    if c == '\'' then "'\"'\"'" else [c]
  }

  function ShellQuote(v: string): string {
    if v == "" then "''" else "'" + Escape(v) + "'"
  }

  function QuoteAll(words: seq<string>): seq<string> {
    seq(|words|, i requires 0 <= i < |words| => ShellQuote(words[i]))
  }

  function Render(spec: CommandSpec, workdir: string): string {
    var cmd := Join(QuoteAll([spec.program] + spec.args), " ");
    if workdir == "" then "exec " + cmd else "cd " + ShellQuote(workdir) + " && exec " + cmd
  }

  lemma QuoteOneMore(words: seq<string>, n: nat)
    requires n < |words|
    ensures QuoteAll(words[..n]) + [ShellQuote(words[n])] == QuoteAll(words[..n + 1])
  {
  }

  method QuoteParts(spec: CommandSpec) returns (parts: seq<string>)
    ensures parts == QuoteAll([spec.program] + spec.args)
  {
    ghost var words := [spec.program] + spec.args;
    parts := [ShellQuote(spec.program)];
    QuoteOneMore(words, 0);
    assert [] + parts == parts;
    for i := 0 to |spec.args|
      invariant parts == QuoteAll(words[..i + 1])
    {
      QuoteOneMore(words, i + 1);
      parts := parts + [ShellQuote(spec.args[i])];
    }
    assert words[..|spec.args| + 1] == words;
  }

  method RenderRemoteCommand(spec: CommandSpec, workdir: string) returns (out: string)
    ensures out == Render(spec, workdir)
  {
    var parts := QuoteParts(spec);
    var cmd := Join(parts, " ");
    if workdir == "" {
      return "exec " + cmd;
    }
    return "cd " + ShellQuote(workdir) + " && exec " + cmd;
  }

  // ----- the shell's tokeniser -----

  /** A character of a word, and whether it was quoted: only unquoted characters can be subject to
      expansion, splitting, globbing, aliases or reserved words. */
  datatype Letter = Letter(c: char, quoted: bool)

  datatype Token = Word(letters: seq<Letter>) | Operator(op: string)

  datatype Mode = Plain | Single | Double

  predicate StartsOperator(c: char) {
    c in {'&', '|', ';', '<', '>', '(', ')', '\n'}
  }

  /** The longest operator at the start of the input. */
  function OperatorAt(s: string): (op: string)
    requires s != [] && StartsOperator(s[0])
    ensures op != [] && op <= s
  {
    if |s| >= 3 && s[..3] == "<<-" then s[..3]
    else if |s| >= 2 && s[..2] in {"&&", "||", ";;", "<<", ">>", "<&", ">&", "<>", ">|"} then s[..2]
    else s[..1]
  }

  function Flush(word: Option<seq<Letter>>): seq<Token> {
    match word case None => [] case Some(letters) => [Word(letters)]
  }

  function Letters(word: Option<seq<Letter>>): seq<Letter> {
    match word case None => [] case Some(letters) => letters
  }

  function With(word: Option<seq<Letter>>, c: char, quoted: bool): Option<seq<Letter>> {
    match word case None => Some([Letter(c, quoted)]) case Some(letters) => Some(letters + [Letter(c, quoted)])
  }

  function After(tokens: seq<Token>, rest: Option<seq<Token>>): Option<seq<Token>> {
    match rest case None => None case Some(more) => Some(tokens + more)
  }

  /** The tokens of the input, with `word` the word begun so far. There are none when a quote is left
      open or an unquoted `$` or backquote would start an expansion. */
  function Lex(s: string, mode: Mode, word: Option<seq<Letter>>): Option<seq<Token>>
    decreases |s|
  {
    if s == [] then (if mode == Plain then Some(Flush(word)) else None)
    else
      match mode
      case Single =>
        if s[0] == '\'' then Lex(s[1..], Plain, Some(Letters(word)))
        else Lex(s[1..], Single, With(word, s[0], true))
      case Double =>
        if s[0] == '"' then Lex(s[1..], Plain, Some(Letters(word)))
        else if s[0] == '$' || s[0] == '`' then None
        else if s[0] == '\\' && |s| > 1 && s[1] in {'$', '`', '"', '\\'}
          then Lex(s[2..], Double, With(word, s[1], true))
        else if s[0] == '\\' && |s| > 1 && s[1] == '\n' then Lex(s[2..], Double, word)
        else Lex(s[1..], Double, With(word, s[0], true))
      case Plain =>
        if s[0] == '\'' then Lex(s[1..], Single, Some(Letters(word)))
        else if s[0] == '"' then Lex(s[1..], Double, Some(Letters(word)))
        else if s[0] == '$' || s[0] == '`' then None
        else if s[0] == '\\' then
          (if |s| == 1 then Lex([], Plain, With(word, s[0], true))
           else if s[1] == '\n' then Lex(s[2..], Plain, word)
           else Lex(s[2..], Plain, With(word, s[1], true)))
        else if s[0] == ' ' || s[0] == '\t' then After(Flush(word), Lex(s[1..], Plain, None))
        else if StartsOperator(s[0]) then
          After(Flush(word) + [Operator(OperatorAt(s))], Lex(s[|OperatorAt(s)|..], Plain, None))
        else if s[0] == '#' && word == None then Lex(s[IndexOf(s, '\n')..], Plain, None)
        else Lex(s[1..], Plain, With(word, s[0], false))
  }

  function Tokenize(s: string): Option<seq<Token>> {
    Lex(s, Plain, None)
  }

  // ----- what the tokeniser makes of a rendered command -----

  function Quoted(v: string): seq<Letter> {
    seq(|v|, i requires 0 <= i < |v| => Letter(v[i], true))
  }

  function Unquoted(v: string): seq<Letter> {
    seq(|v|, i requires 0 <= i < |v| => Letter(v[i], false))
  }

  function QuotedWords(words: seq<string>): seq<Token> {
    seq(|words|, i requires 0 <= i < |words| => Word(Quoted(words[i])))
  }

  function Command(spec: CommandSpec, workdir: string): seq<Token> {
    (if workdir == "" then [] else [Word(Unquoted("cd")), Word(Quoted(workdir)), Operator("&&")])
    + [Word(Unquoted("exec"))] + QuotedWords([spec.program] + spec.args)
  }

  lemma Cons(c: char, rest: string)
    ensures ([c] + rest)[0] == c && ([c] + rest)[1..] == rest
  {
  }

  /** A single quote, closed, double-quoted and reopened, is one quoted letter. */
  lemma LexEscapedQuote(word: seq<Letter>, rest: string)
    ensures Lex("'\"'\"'" + rest, Single, Some(word)) == Lex(rest, Single, Some(word + [Letter('\'', true)]))
  {
    var s4 := "'" + rest;
    var s3 := "\"" + s4;
    var s2 := "'" + s3;
    var s1 := "\"" + s2;
    var s0 := "'" + s1;
    assert s0 == "'\"'\"'" + rest;
    Cons('\'', s1);
    Cons('"', s2);
    Cons('\'', s3);
    Cons('"', s4);
    Cons('\'', rest);
    assert Lex(s4, Plain, Some(word + [Letter('\'', true)])) == Lex(rest, Single, Some(word + [Letter('\'', true)]));
    assert Lex(s3, Double, Some(word + [Letter('\'', true)])) == Lex(s4, Plain, Some(word + [Letter('\'', true)]));
    assert Lex(s2, Double, Some(word)) == Lex(s3, Double, Some(word + [Letter('\'', true)]));
    assert Lex(s1, Plain, Some(word)) == Lex(s2, Double, Some(word));
  }

  lemma {:induction false} LexEscaped(v: string, word: seq<Letter>, rest: string)
    ensures Lex(Escape(v) + ("'" + rest), Single, Some(word)) == Lex(rest, Plain, Some(word + Quoted(v)))
    decreases |v|
  {
    if v == [] {
      assert Escape(v) + ("'" + rest) == ['\''] + rest;
      Cons('\'', rest);
      assert word + Quoted(v) == word;
    } else {
      var more := Escape(v[1..]) + ("'" + rest);
      var next := word + [Letter(v[0], true)];
      assert Escape(v) + ("'" + rest) == EscapeChar(v[0]) + more;
      if v[0] == '\'' {
        LexEscapedQuote(word, more);
      } else {
        Cons(v[0], more);
      }
      LexEscaped(v[1..], next, rest);
      assert next + Quoted(v[1..]) == word + Quoted(v);
    }
  }

  lemma LexOpen(text: string)
    ensures Lex(['\''] + text, Plain, None) == Lex(text, Single, Some([]))
  {
    Cons('\'', text);
  }

  /** A quoted argument at the start of a word is read as exactly its characters, all of them quoted. */
  lemma LexShellQuote(v: string, rest: string)
    ensures Lex(ShellQuote(v) + rest, Plain, None) == Lex(rest, Plain, Some(Quoted(v)))
  {
    var text := Escape(v) + ("'" + rest);
    assert ShellQuote(v) + rest == ['\''] + text;
    LexOpen(text);
    LexEscaped(v, [], rest);
    assert [] + Quoted(v) == Quoted(v);
  }

  lemma LexBlank(word: seq<Letter>, rest: string)
    ensures Lex(" " + rest, Plain, Some(word)) == After([Word(word)], Lex(rest, Plain, None))
  {
  }

  lemma LexLetter(c: char, word: Option<seq<Letter>>, rest: string)
    requires 'a' <= c <= 'z'
    ensures Lex([c] + rest, Plain, word) == Lex(rest, Plain, With(word, c, false))
  {
  }

  lemma {:induction false} LexName(name: string, word: seq<Letter>, rest: string)
    requires forall i | 0 <= i < |name| :: 'a' <= name[i] <= 'z'
    ensures Lex(name + rest, Plain, Some(word)) == Lex(rest, Plain, Some(word + Unquoted(name)))
    decreases |name|
  {
    if name == [] {
      assert name + rest == rest && word + Unquoted(name) == word;
    } else {
      assert name + rest == [name[0]] + (name[1..] + rest);
      LexLetter(name[0], Some(word), name[1..] + rest);
      LexName(name[1..], word + [Letter(name[0], false)], rest);
      assert word + [Letter(name[0], false)] + Unquoted(name[1..]) == word + Unquoted(name);
    }
  }

  /** A lower-case name followed by a blank is one unquoted word. */
  lemma LexNameWord(name: string, rest: string)
    requires name != [] && forall i | 0 <= i < |name| :: 'a' <= name[i] <= 'z'
    ensures Lex(name + " " + rest, Plain, None) == After([Word(Unquoted(name))], Lex(rest, Plain, None))
  {
    assert name + " " + rest == [name[0]] + (name[1..] + (" " + rest));
    LexLetter(name[0], None, name[1..] + (" " + rest));
    assert With(None, name[0], false) == Some([Letter(name[0], false)]);
    LexName(name[1..], [Letter(name[0], false)], " " + rest);
    assert [Letter(name[0], false)] + Unquoted(name[1..]) == Unquoted(name);
    LexBlank(Unquoted(name), rest);
  }

  lemma LexLastQuoted(v: string)
    ensures Lex(ShellQuote(v), Plain, None) == Some([Word(Quoted(v))])
  {
    LexShellQuote(v, "");
    assert ShellQuote(v) + "" == ShellQuote(v);
  }

  lemma LexFirstQuoted(v: string, more: string)
    ensures Lex(ShellQuote(v) + " " + more, Plain, None) == After([Word(Quoted(v))], Lex(more, Plain, None))
  {
    assert ShellQuote(v) + " " + more == ShellQuote(v) + (" " + more);
    LexShellQuote(v, " " + more);
    LexBlank(Quoted(v), more);
  }

  lemma JoinFront(words: seq<string>)
    requires |words| > 1
    ensures Join(QuoteAll(words), " ") == ShellQuote(words[0]) + " " + Join(QuoteAll(words[1..]), " ")
  {
    assert QuoteAll(words)[1..] == QuoteAll(words[1..]);
  }

  lemma WordsFront(words: seq<string>)
    requires words != []
    ensures QuotedWords(words) == [Word(Quoted(words[0]))] + QuotedWords(words[1..])
  {
  }

  lemma {:induction false} LexQuotedWords(words: seq<string>)
    requires words != []
    ensures Lex(Join(QuoteAll(words), " "), Plain, None) == Some(QuotedWords(words))
    decreases |words|
  {
    WordsFront(words);
    if |words| == 1 {
      assert Join(QuoteAll(words), " ") == ShellQuote(words[0]);
      assert [Word(Quoted(words[0]))] + QuotedWords(words[1..]) == [Word(Quoted(words[0]))];
      LexLastQuoted(words[0]);
    } else {
      JoinFront(words);
      LexFirstQuoted(words[0], Join(QuoteAll(words[1..]), " "));
      LexQuotedWords(words[1..]);
    }
  }

  lemma AfterNothing(rest: Option<seq<Token>>)
    ensures After([], rest) == rest
  {
    if rest.Some? { assert [] + rest.value == rest.value; }
  }

  lemma LexAnd(rest: string)
    ensures Lex("&& " + rest, Plain, None) == After([Operator("&&")], Lex(rest, Plain, None))
  {
    var s := "&& " + rest;
    assert s[0] == '&' && s[..2] == "&&";
    assert OperatorAt(s) == "&&" by { assert s[..3][0] == '&'; }
    assert s[2..] == [' '] + rest;
    Cons(' ', rest);
    assert Lex(s[2..], Plain, None) == After([], Lex(rest, Plain, None));
    assert Flush(None) + [Operator("&&")] == [Operator("&&")];
    AfterNothing(Lex(rest, Plain, None));
  }

  /** The command name in front of any command that lexes. */
  lemma LexNamed(name: string, rest: string, tokens: seq<Token>)
    requires name != [] && forall i | 0 <= i < |name| :: 'a' <= name[i] <= 'z'
    requires Lex(rest, Plain, None) == Some(tokens)
    ensures Lex(name + " " + rest, Plain, None) == Some([Word(Unquoted(name))] + tokens)
  {
    LexNameWord(name, rest);
  }

  lemma LexExec(words: seq<string>)
    requires words != []
    ensures Tokenize("exec " + Join(QuoteAll(words), " ")) == Some([Word(Unquoted("exec"))] + QuotedWords(words))
  {
    var cmd := Join(QuoteAll(words), " ");
    LexQuotedWords(words);
    LexNamed("exec", cmd, QuotedWords(words));
    assert "exec" + " " == "exec ";
  }

  lemma LexChange(workdir: string, rest: string)
    ensures Tokenize("cd " + ShellQuote(workdir) + " && " + rest) ==
            After([Word(Unquoted("cd"))], After([Word(Quoted(workdir))], After([Operator("&&")], Tokenize(rest))))
  {
    var and := "&& " + rest;
    assert "cd " + ShellQuote(workdir) + " && " + rest == "cd" + " " + (ShellQuote(workdir) + (" " + and));
    LexNameWord("cd", ShellQuote(workdir) + (" " + and));
    LexShellQuote(workdir, " " + and);
    LexBlank(Quoted(workdir), and);
    LexAnd(rest);
  }

  lemma RenderHere(spec: CommandSpec)
    ensures Tokenize(Render(spec, "")) == Some(Command(spec, ""))
  {
    LexExec([spec.program] + spec.args);
    assert [] + [Word(Unquoted("exec"))] == [Word(Unquoted("exec"))];
  }

  lemma RenderThere(spec: CommandSpec, workdir: string)
    requires workdir != ""
    ensures Tokenize(Render(spec, workdir)) == Some(Command(spec, workdir))
  {
    var words := [spec.program] + spec.args;
    var rest := "exec " + Join(QuoteAll(words), " ");
    RenderParts(spec, workdir);
    LexChange(workdir, rest);
    LexExec(words);
    CommandParts(workdir, [Word(Unquoted("exec"))], QuotedWords(words));
  }

  lemma RenderParts(spec: CommandSpec, workdir: string)
    requires workdir != ""
    ensures Render(spec, workdir) ==
            "cd " + ShellQuote(workdir) + " && " + ("exec " + Join(QuoteAll([spec.program] + spec.args), " "))
  {
  }

  lemma CommandParts(workdir: string, exec: seq<Token>, words: seq<Token>)
    ensures [Word(Unquoted("cd"))] + ([Word(Quoted(workdir))] + ([Operator("&&")] + (exec + words))) ==
            [Word(Unquoted("cd")), Word(Quoted(workdir)), Operator("&&")] + exec + words
  {
  }

  /** One shell parse of the rendered command gives back exactly the program and its arguments after
      `exec`, with a `cd` to the working directory first when there is one, and every character that came
      from the caller is quoted. This holds for all strings. */
  lemma RenderRoundTrips(spec: CommandSpec, workdir: string)
    ensures Tokenize(Render(spec, workdir)) == Some(Command(spec, workdir))
  {
    if workdir == "" {
      RenderHere(spec);
    } else {
      RenderThere(spec, workdir);
    }
  }

  lemma {:induction false} QuotedIsInjective(v: string, w: string)
    requires Quoted(v) == Quoted(w)
    ensures v == w
  {
    forall i | 0 <= i < |v| ensures v[i] == w[i] { assert Quoted(v)[i] == Quoted(w)[i]; }
  }

  lemma {:induction false} QuotedWordsInjective(words: seq<string>, words': seq<string>)
    requires QuotedWords(words) == QuotedWords(words')
    ensures words == words'
  {
    assert |words| == |QuotedWords(words)| == |words'|;
    forall i | 0 <= i < |words| ensures words[i] == words'[i] {
      assert QuotedWords(words)[i] == QuotedWords(words')[i];
      QuotedIsInjective(words[i], words'[i]);
    }
  }

  /** The tokens tell whether there is a working directory, which one, and what is executed. */
  lemma CommandIsInjective(spec: CommandSpec, workdir: string, spec': CommandSpec, workdir': string)
    requires Command(spec, workdir) == Command(spec', workdir')
    ensures spec == spec' && workdir == workdir'
  {
    var words, words' := [spec.program] + spec.args, [spec'.program] + spec'.args;
    var c, c' := Command(spec, workdir), Command(spec', workdir');
    assert |Unquoted("cd")| == 2 && |Unquoted("exec")| == 4;
    assert c[0] == Word(Unquoted(if workdir == "" then "exec" else "cd"));
    assert c'[0] == Word(Unquoted(if workdir' == "" then "exec" else "cd"));
    assert workdir == "" <==> workdir' == "";
    if workdir == "" {
      assert c[1..] == QuotedWords(words) && c'[1..] == QuotedWords(words');
    } else {
      assert c[1] == Word(Quoted(workdir)) && c'[1] == Word(Quoted(workdir'));
      QuotedIsInjective(workdir, workdir');
      assert c[4..] == QuotedWords(words) && c'[4..] == QuotedWords(words');
    }
    QuotedWordsInjective(words, words');
    assert spec.args == words[1..] && spec'.args == words'[1..];
  }

  /** Two different commands, or the same in different directories, never render to the same text. */
  lemma RenderIsInjective(spec: CommandSpec, workdir: string, spec': CommandSpec, workdir': string)
    requires Render(spec, workdir) == Render(spec', workdir')
    ensures spec == spec' && workdir == workdir'
  {
    RenderRoundTrips(spec, workdir);
    RenderRoundTrips(spec', workdir');
    CommandIsInjective(spec, workdir, spec', workdir');
  }
}
