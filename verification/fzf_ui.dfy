/** The selector wrapper: the option string handed to fzf, the quoting of the preview command,
    the split of fzf's `--expect` output into (pressed key, selected lines), and the removal and
    restoration of `FZF_DEFAULT_OPTS` around the call. The fzf process itself is outside the
    model: what it prints is an input. */
module FzfUi {
  import opened Wrappers
  import opened Text

  // ---------------------------------------------------------------------------------------------
  // `shlex.quote`

  /** The characters `shlex.quote` leaves unquoted: ASCII letters, digits and `_@%+=:,./-`. */
  predicate IsShellSafe(ch: char) {
    || 'a' <= ch <= 'z' || 'A' <= ch <= 'Z' || '0' <= ch <= '9'
    || ch in "_@%+=:,./-"
  }

  /** `s.replace("'", "'\"'\"'")`: each single quote closes the quoted run, is emitted inside
      double quotes, and reopens the run. */
  function EscapeSingleQuotes(s: string): string
  {
    if s == [] then []
    else (if s[0] == '\'' then "'\"'\"'" else [s[0]]) + EscapeSingleQuotes(s[1..])
  }

  /** `shlex.quote(s)`. */
  function ShellQuote(s: string): string
  {
    if s == "" then "''"
    else if forall i | 0 <= i < |s| :: IsShellSafe(s[i]) then s
    else "'" + EscapeSingleQuotes(s) + "'"
  }

  datatype QuoteState = Unquoted | InSingle | InDouble

  /** Reads `q` as a single word under the quoting rules of the POSIX shell command language
      (section 2.2 of the Shell Command Language): outside quotes a safe character stands for
      itself; single quotes keep every character up to the next single quote; double quotes keep
      every character up to the next double quote. `None` for anything that would end the word or
      that the shell would interpret (`$`, backquote and backslash inside double quotes; blanks
      and other special characters outside quotes), and for an unterminated quote. */
  function ReadWord(q: string, state: QuoteState, acc: string): Option<string>
    decreases |q|
  {
    if q == [] then (if state == Unquoted then Some(acc) else None)
    else
      var ch := q[0];
      match state
      case Unquoted =>
        if ch == '\'' then ReadWord(q[1..], InSingle, acc)
        else if ch == '"' then ReadWord(q[1..], InDouble, acc)
        else if IsShellSafe(ch) then ReadWord(q[1..], Unquoted, acc + [ch])
        else None
      case InSingle =>
        if ch == '\'' then ReadWord(q[1..], Unquoted, acc)
        else ReadWord(q[1..], InSingle, acc + [ch])
      case InDouble =>
        if ch == '"' then ReadWord(q[1..], Unquoted, acc)
        else if ch in "$`\\" then None
        else ReadWord(q[1..], InDouble, acc + [ch])
  }

  lemma {:induction false} ReadSafe(s: string, acc: string)
    requires forall i | 0 <= i < |s| :: IsShellSafe(s[i])
    ensures ReadWord(s, Unquoted, acc) == Some(acc + s)
    decreases |s|
  {
    if s == [] {
      assert acc + s == acc;
    } else {
      assert IsShellSafe(s[0]);
      assert s[0] != '\'' && s[0] != '"';
      assert ReadWord(s, Unquoted, acc) == ReadWord(s[1..], Unquoted, acc + [s[0]]);
      ReadSafe(s[1..], acc + [s[0]]);
      assert acc + [s[0]] + s[1..] == acc + s;
    }
  }

  /** The escape of one single quote, `'"'"'`, read inside single quotes: close the run, read a
      quote inside double quotes, reopen the run. */
  lemma ReadQuoteEscape(tail: string, acc: string)
    ensures ReadWord("'\"'\"'" + tail, InSingle, acc) == ReadWord(tail, InSingle, acc + "'")
  {
    var q := "'\"'\"'" + tail;
    var q1, q2, q3, q4 := q[1..], q[2..], q[3..], q[4..];
    assert q[0] == '\'' && q1[0] == '"' && q2[0] == '\'' && q3[0] == '"' && q4[0] == '\'';
    assert q1 == q[1..] && q2 == q1[1..] && q3 == q2[1..] && q4 == q3[1..] && tail == q4[1..];
    calc {
      ReadWord(q, InSingle, acc);
      ReadWord(q1, Unquoted, acc);
      ReadWord(q2, InDouble, acc);
      ReadWord(q3, InDouble, acc + "'");
      ReadWord(q4, Unquoted, acc + "'");
      ReadWord(tail, InSingle, acc + "'");
    }
  }

  /** Any other character inside single quotes stands for itself. */
  lemma ReadQuotedChar(ch: char, tail: string, acc: string)
    requires ch != '\''
    ensures ReadWord([ch] + tail, InSingle, acc) == ReadWord(tail, InSingle, acc + [ch])
  {
    assert ([ch] + tail)[1..] == tail;
  }

  /** The escaped form of the first character, as `EscapeSingleQuotes` emits it. */
  function EscapedChar(ch: char): string {
    if ch == '\'' then "'\"'\"'" else [ch]
  }

  /** Inside single quotes, the escaped form of a character reads as that character. */
  lemma ReadEscapedChar(ch: char, tail: string, acc: string)
    ensures ReadWord(EscapedChar(ch) + tail, InSingle, acc) == ReadWord(tail, InSingle, acc + [ch])
  {
    if ch == '\'' {
      ReadQuoteEscape(tail, acc);
    } else {
      ReadQuotedChar(ch, tail, acc);
    }
  }

  lemma {:induction false} ReadEscaped(s: string, rest: string, acc: string)
    ensures ReadWord(EscapeSingleQuotes(s) + rest, InSingle, acc) == ReadWord(rest, InSingle, acc + s)
    decreases |s|
  {
    if s == [] {
      assert acc + s == acc;
      assert EscapeSingleQuotes(s) + rest == rest;
    } else {
      var tail := EscapeSingleQuotes(s[1..]) + rest;
      assert EscapeSingleQuotes(s) == EscapedChar(s[0]) + EscapeSingleQuotes(s[1..]);
      calc {
        ReadWord(EscapeSingleQuotes(s) + rest, InSingle, acc);
        { assert EscapeSingleQuotes(s) + rest == EscapedChar(s[0]) + tail; }
        ReadWord(EscapedChar(s[0]) + tail, InSingle, acc);
        { ReadEscapedChar(s[0], tail, acc); }
        ReadWord(tail, InSingle, acc + [s[0]]);
        { ReadEscaped(s[1..], rest, acc + [s[0]]); }
        ReadWord(rest, InSingle, acc + [s[0]] + s[1..]);
        { assert acc + [s[0]] + s[1..] == acc + s; }
        ReadWord(rest, InSingle, acc + s);
      }
    }
  }

  /** A string with a character outside the safe set is put in single quotes, and reads back. */
  lemma QuotedUnsafe(s: string)
    requires s != "" && !(forall i | 0 <= i < |s| :: IsShellSafe(s[i]))
    ensures ReadWord(ShellQuote(s), Unquoted, "") == Some(s)
  {
    var e := EscapeSingleQuotes(s);
    var q := "'" + e + "'";
    assert ShellQuote(s) == q;
    assert q[0] == '\'' && q[1..] == e + "'";
    assert ReadWord(q, Unquoted, "") == ReadWord(e + "'", InSingle, "");
    ReadEscaped(s, "'", "");
    assert "" + s == s;
    assert ReadWord("'", InSingle, s) == ReadWord([], Unquoted, s);
  }

  /** The quoted preview command reaches fzf as exactly one shell word with the original text:
      quoting loses nothing and adds nothing. */
  lemma QuotedIsOneWord(s: string)
    ensures ReadWord(ShellQuote(s), Unquoted, "") == Some(s)
  {
    if s == "" {
      assert ShellQuote(s) == "''" && "''"[1..] == "'" && "'"[1..] == "";
      assert ReadWord("''", Unquoted, "") == ReadWord("'", InSingle, "");
      assert ReadWord("'", InSingle, "") == ReadWord("", Unquoted, "");
    } else if forall i | 0 <= i < |s| :: IsShellSafe(s[i]) {
      ReadSafe(s, "");
      assert "" + s == s;
    } else {
      QuotedUnsafe(s);
    }
  }

  // ---------------------------------------------------------------------------------------------
  // `_build_fzf_options`

  const BaseOptions: string := "--ansi --multi --height 80% --border --layout=reverse"
  const PreviewWindow: string := "right:60%:wrap"

  /** The option string: the fixed options; then, for a non-empty preview command, `--preview`,
      the quoted command, `--preview-window` and its layout; then, for non-empty expect keys, one
      `--expect=` option listing them in order, separated by commas. */
  function FzfOptions(previewCommand: string, expectKeys: seq<string>): (r: string)
    ensures StartsWith(r, BaseOptions)
    ensures expectKeys != [] ==> EndsWith(r, " --expect=" + Join(",", expectKeys))
  {
    var head := BaseOptions + PreviewOptions(previewCommand);
    var tail := if expectKeys != [] then " --expect=" + Join(",", expectKeys) else "";
    assert (head + tail)[..|BaseOptions|] == BaseOptions;
    assert (head + tail)[|head + tail| - |tail|..] == tail;
    head + tail
  }

  /** The preview part of the option string, with its leading space; empty without a command. */
  function PreviewOptions(previewCommand: string): string
  {
    if previewCommand != "" then " --preview " + ShellQuote(previewCommand) + " --preview-window " + PreviewWindow else ""
  }

  lemma JoinFourPreviewTokens(q: string)
    ensures Join(" ", ["--preview", q, "--preview-window", PreviewWindow])
      == "--preview " + q + " --preview-window " + PreviewWindow
  {
    var t := ["--preview", q, "--preview-window", PreviewWindow];
    assert t[..3][..2] == t[..2] && t[..2][..1] == t[..1] && t[..1] == ["--preview"];
    assert Join(" ", t[..2]) == "--preview" + " " + q;
    assert Join(" ", t[..3]) == "--preview" + " " + q + " " + "--preview-window";
    assert t[..4] == t;
  }

  /** Appending the four preview tokens appends the preview part of the option string. */
  lemma JoinPreviewTokens(head: seq<string>, q: string, t: seq<string>)
    requires head != [] && t == ["--preview", q, "--preview-window", PreviewWindow]
    ensures Join(" ", head + t) == Join(" ", head) + (" --preview " + q + " --preview-window " + PreviewWindow)
  {
    JoinFourPreviewTokens(q);
    JoinAppendGrouped(" ", head, t);
  }

  /** Appending the `--expect=` token appends it after one space. */
  lemma JoinExpectToken(head: seq<string>, expectKeys: seq<string>)
    requires head != []
    ensures Join(" ", head + ["--expect=" + Join(",", expectKeys)])
      == Join(" ", head) + " --expect=" + Join(",", expectKeys)
  {
    JoinAppend(" ", head, ["--expect=" + Join(",", expectKeys)]);
  }

  /** The fixed tokens that every option string starts with. */
  function BaseTokens(): (t: seq<string>)
    ensures t != [] && Join(" ", t) == BaseOptions
  {
    var t := ["--ansi", "--multi", "--height", "80%", "--border", "--layout=reverse"];
    JoinBaseTokens(t);
    t
  }

  lemma JoinBaseTokens(t: seq<string>)
    requires t == ["--ansi", "--multi", "--height", "80%", "--border", "--layout=reverse"]
    ensures Join(" ", t) == BaseOptions
  {
    assert t[..1] == ["--ansi"];
    assert t[..2][..1] == t[..1];
    assert Join(" ", t[..2]) == "--ansi --multi";
    assert t[..3][..2] == t[..2];
    assert Join(" ", t[..3]) == "--ansi --multi --height";
    assert t[..4][..3] == t[..3];
    assert Join(" ", t[..4]) == "--ansi --multi --height 80%";
    assert t[..5][..4] == t[..4];
    assert Join(" ", t[..5]) == "--ansi --multi --height 80% --border";
    assert t[..6][..5] == t[..5];
    assert t[..6] == t;
  }

  function PreviewTokens(previewCommand: string): seq<string> {
    if previewCommand != "" then ["--preview", ShellQuote(previewCommand), "--preview-window", PreviewWindow] else []
  }

  function ExpectTokens(expectKeys: seq<string>): seq<string> {
    if expectKeys != [] then ["--expect=" + Join(",", expectKeys)] else []
  }

  /** The tokens the option builder collects join to the option string. */
  lemma JoinTokens(previewCommand: string, expectKeys: seq<string>)
    ensures Join(" ", BaseTokens() + PreviewTokens(previewCommand) + ExpectTokens(expectKeys))
      == FzfOptions(previewCommand, expectKeys)
  {
    var head := BaseTokens() + PreviewTokens(previewCommand);
    if previewCommand != "" {
      JoinPreviewTokens(BaseTokens(), ShellQuote(previewCommand), PreviewTokens(previewCommand));
    } else {
      assert head == BaseTokens();
    }
    assert Join(" ", head) == BaseOptions + PreviewOptions(previewCommand);
    if expectKeys != [] {
      JoinExpectToken(head, expectKeys);
    } else {
      assert head + ExpectTokens(expectKeys) == head;
    }
  }

  /** `_build_fzf_options`; a preview command of `None` is modelled as "" and expect keys of
      `None` as [], which the source treats alike since both are falsy. The tokens are joined by
      single spaces. */
  method BuildFzfOptions(previewCommand: string, expectKeys: seq<string>) returns (options: string)
    ensures options == FzfOptions(previewCommand, expectKeys)
  {
    var tokens := BaseTokens();
    if previewCommand != "" {
      tokens := tokens + ["--preview", ShellQuote(previewCommand)];
      tokens := tokens + ["--preview-window", PreviewWindow];
    }
    assert tokens == BaseTokens() + PreviewTokens(previewCommand);
    if expectKeys != [] {
      tokens := tokens + ["--expect=" + Join(",", expectKeys)];
    }
    assert tokens == BaseTokens() + PreviewTokens(previewCommand) + ExpectTokens(expectKeys);
    options := Join(" ", tokens);
    JoinTokens(previewCommand, expectKeys);
  }

  // ---------------------------------------------------------------------------------------------
  // `prompt`

  /** What `prompt` returns: the pressed key, if one was recognised, and the selected lines. */
  datatype Reply = Reply(key: Option<string>, selection: seq<string>)

  /** The post-processing of `prompt`: with expect keys, a first line that is one of them is taken
      as the pressed key and dropped from the selection; otherwise the whole output is the
      selection and there is no key. (A key equal to "" is falsy in the source and is not dropped.) */
  function SplitReply(expectKeys: seq<string>, res: seq<string>): (r: Reply)
    ensures expectKeys == [] ==> r == Reply(None, res)
    ensures expectKeys != [] && res == [] ==> r == Reply(None, [])
    ensures r.key.Some? ==> res != [] && r.key.value == res[0] && res[0] in expectKeys
    ensures expectKeys != [] && res != [] && res[0] in expectKeys ==> r.key == Some(res[0])
    ensures r.key.Some? && r.key.value != "" ==> res == [r.key.value] + r.selection
    ensures !(r.key.Some? && r.key.value != "") ==> r.selection == res
  {
    if expectKeys != [] then
      if res == [] then Reply(None, [])
      else
        var key := if res[0] in expectKeys then Some(res[0]) else None;
        var selections := if key.Some? && key.value != "" then res[1..] else res;
        Reply(key, selections)
    else Reply(None, res)
  }

  const DefaultOptsVar: string := "FZF_DEFAULT_OPTS"

  /** The process environment, `os.environ`. */
  class Environment {
    var vars: map<string, string>

    constructor (vars: map<string, string>)
      ensures this.vars == vars
    {
      this.vars := vars;
    }
  }

  /** What the fzf call does: it returns the lines fzf printed, or it raises. */
  datatype SelectorRun = Returned(output: seq<string>) | Raised

  /** `prompt`: builds the options, hides `FZF_DEFAULT_OPTS` for the duration of the selector call,
      restores it afterwards whether or not the call raised, and splits the output. `seen` is the
      environment the selector runs under; a `None` reply is the selector's exception, which
      propagates. */
  method Prompt(env: Environment, previewCommand: string, expectKeys: seq<string>, run: SelectorRun)
    returns (options: string, seen: map<string, string>, reply: Option<Reply>)
    modifies env
    ensures options == FzfOptions(previewCommand, expectKeys)
    ensures DefaultOptsVar !in seen && seen == old(env.vars) - {DefaultOptsVar}
    ensures env.vars == old(env.vars)
    ensures reply == if run.Returned? then Some(SplitReply(expectKeys, run.output)) else None
  {
    options := BuildFzfOptions(previewCommand, expectKeys);
    var oldEnv := Get(env.vars, DefaultOptsVar);
    env.vars := env.vars - {DefaultOptsVar};
    seen := env.vars;
    // finally:
    if oldEnv.Some? {
      env.vars := env.vars[DefaultOptsVar := oldEnv.value];
    }
    if run.Raised? {
      return options, seen, None;
    }
    reply := Some(SplitReply(expectKeys, run.output));
  }
}
