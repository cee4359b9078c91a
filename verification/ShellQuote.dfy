/** Quoting an argument list for a POSIX shell (src/skill_native/cloudflare_runtime.py,
    `_shell_quote` and `execute`), read back by the token rules of sections 2.2.2, 2.2.3 and 2.3
    of the POSIX.1-2017 Shell Command Language. */
module ShellQuote {
  import opened Wrappers

  /** `value.replace("'", "'\"'\"'")`. */
  function Escape(value: string): string {
    if value == "" then ""
    else (if value[0] == '\'' then "'\"'\"'" else [value[0]]) + Escape(value[1..])
  }

  function Quote(value: string): string {
    "'" + Escape(value) + "'"
  }

  /** The command line of `execute`: the quoted parts joined by single spaces. */
  function CommandLine(argv: seq<string>): string {
    if argv == [] then ""
    else if |argv| == 1 then Quote(argv[0])
    else Quote(argv[0]) + " " + CommandLine(argv[1..])
  }

  /** Where the shell stands between two characters: between words, or in a word read so far to
      `text`, outside quotes, inside single quotes or inside double quotes. */
  datatype Mode = Between | Plain(text: string) | InSingle(text: string) | InDouble(text: string)

  function Begun(mode: Mode): string {
    match mode
    case Between => ""
    case Plain(text) => text
    case InSingle(text) => text
    case InDouble(text) => text
  }

  /** Characters that, unquoted, do not simply stand for themselves. */
  predicate NeedsQuoting(c: char) {
    c in {'|', '&', ';', '<', '>', '(', ')', '$', '`', '\\', '\n', '*', '?', '[', '#', '~', '=', '%'}
  }

  /** The words of a command line, or nothing if it is anything but a single command of plain and
      quoted words: an operator, an expansion, a pattern, a line break, or an open quote. */
  function Words(s: string, mode: Mode): Option<seq<string>>
    decreases |s|
  {
    if s == "" then
      match mode
      case Between => Some([])
      case Plain(text) => Some([text])
      case _ => None
    else
      var c, rest := s[0], s[1..];
      match mode
      case InSingle(text) => Words(rest, if c == '\'' then Plain(text) else InSingle(text + [c]))
      case InDouble(text) =>
        if c == '\"' then Words(rest, Plain(text))
        else if c in {'$', '`', '\\'} then None
        else Words(rest, InDouble(text + [c]))
      case _ =>
        var text := Begun(mode);
        if c == ' ' || c == '\t' then
          if mode.Between? then Words(rest, Between)
          else match Words(rest, Between)
            case None => None
            case Some(words) => Some([text] + words)
        else if c == '\'' then Words(rest, InSingle(text))
        else if c == '\"' then Words(rest, InDouble(text))
        else if NeedsQuoting(c) then None
        else Words(rest, Plain(text + [c]))
  }

  /** One single quote of the value, written as four characters around it, is read back as itself. */
  lemma EscapedQuote(rest: string, text: string)
    ensures Words("'\"'\"'" + rest, InSingle(text)) == Words(rest, InSingle(text + "'"))
  {
    var s := "'\"'\"'" + rest;
    assert s[1..] == "\"'\"'" + rest;
    assert s[1..][1..] == "'\"'" + rest;
    assert s[1..][1..][1..] == "\"'" + rest;
    assert s[1..][1..][1..][1..] == "'" + rest;
    assert s[1..][1..][1..][1..][1..] == rest;
    assert Words("'" + rest, Plain(text + "'")) == Words(rest, InSingle(text + "'"));
    assert Words("\"'" + rest, InDouble(text + "'")) == Words("'" + rest, Plain(text + "'"));
    assert Words("'\"'" + rest, InDouble(text)) == Words("\"'" + rest, InDouble(text + "'"));
    assert Words("\"'\"'" + rest, Plain(text)) == Words("'\"'" + rest, InDouble(text));
  }

  lemma {:induction false} EscapeReadBack(value: string, rest: string, text: string)
    ensures Words(Escape(value) + "'" + rest, InSingle(text)) == Words(rest, Plain(text + value))
    decreases |value|
  {
    if value == "" {
      assert Escape(value) + "'" + rest == "'" + rest;
      assert ("'" + rest)[1..] == rest && text + value == text;
    } else {
      var tail := Escape(value[1..]) + "'" + rest;
      assert text + [value[0]] + value[1..] == text + value;
      EscapeReadBack(value[1..], rest, text + [value[0]]);
      if value[0] == '\'' {
        assert Escape(value) + "'" + rest == "'\"'\"'" + tail;
        EscapedQuote(tail, text);
      } else {
        assert Escape(value) + "'" + rest == [value[0]] + tail;
        assert ([value[0]] + tail)[1..] == tail;
      }
    }
  }

  lemma QuoteReadBack(value: string, rest: string)
    ensures Words(Quote(value) + rest, Between) == Words(rest, Plain(value))
  {
    var s := Quote(value) + rest;
    assert s[1..] == Escape(value) + "'" + rest;
    EscapeReadBack(value, rest, "");
    assert "" + value == value;
  }

  /** Round trip: the shell reads the command line back as exactly the argument list, empty
      arguments and arguments full of quotes, blanks and line breaks included. */
  lemma {:induction false} CommandLineReadBack(argv: seq<string>)
    ensures Words(CommandLine(argv), Between) == Some(argv)
    decreases |argv|
  {
    if |argv| == 1 {
      QuoteReadBack(argv[0], "");
      assert Quote(argv[0]) + "" == Quote(argv[0]);
      assert argv == [argv[0]];
    } else if |argv| > 1 {
      var rest := " " + CommandLine(argv[1..]);
      QuoteReadBack(argv[0], rest);
      assert CommandLine(argv) == Quote(argv[0]) + rest;
      assert rest[1..] == CommandLine(argv[1..]);
      CommandLineReadBack(argv[1..]);
      assert [argv[0]] + argv[1..] == argv;
    }
  }

  /** No two argument lists share a command line. */
  lemma CommandLineInjective(a: seq<string>, b: seq<string>)
    requires CommandLine(a) == CommandLine(b)
    ensures a == b
  {
    CommandLineReadBack(a);
    CommandLineReadBack(b);
  }
}
