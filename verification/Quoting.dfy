/**
 Shell words: shellQuote and the SSH command line of internal/runner/execution_host.go, quoteShell and the
 remote commands of internal/workspace/manager.go, and how a POSIX shell reads them back.
 */
module Quoting {
  import opened Text
  import opened Domain

  // ----- the code's side -----

  predicate SafeShellChar(c: char) {
    c == '/' || c == '.' || c == '_' || c == '-' || '0' <= c <= '9' || 'A' <= c <= 'Z' || 'a' <= c <= 'z'
  }

  predicate AllSafe(s: string) {
    forall i :: 0 <= i < |s| ==> SafeShellChar(s[i])
  }

  /** strings.ReplaceAll of ' by '\'' */
  function Escape(s: string): string {
    if s == "" then "" else (if s[0] == '\'' then "'\\''" else [s[0]]) + Escape(s[1..])
  }

  /** shellQuote, and quoteShell of the workspace manager, which is the same function. */
  function ShellQuote(value: string): string {
    if value == "" then "''"
    else if AllSafe(value) then value
    else "'" + Escape(value) + "'"
  }

  function RemoteCommand(dir: string, command: string): string {
    if IsBlank(dir) then command else "cd " + ShellQuote(dir) + " && " + command
  }

  // ----- the shell's side: token recognition of the POSIX Shell Command Language -----

  /** The words of the first simple command, and what follows from its control operator on. */
  datatype Command = Command(words: seq<string>, rest: string)

  predicate IsOperatorChar(c: char) {
    c == '\n' || c == '&' || c == ';' || c == '|' || c == '<' || c == '>' || c == '(' || c == ')'
  }

  /** Characters whose unquoted meaning (expansions, patterns, comments, reserved words) is not modelled. */
  predicate IsUnmodelled(c: char) {
    c == '$' || c == '`' || c == '"' || c == '*' || c == '?' || c == '[' || c == '#' || c == '~'
    || c == '{' || c == '}' || c == '!' || c == '\0'
  }

  function Flush(words: seq<string>, word: Option<string>): seq<string> {
    if word.Some? then words + [word.value] else words
  }

  /** Outside quotes; `word` is the word read so far, None between words. */
  function Scan(s: string, words: seq<string>, word: Option<string>): Option<Command>
    decreases |s|
  {
    if s == "" then Some(Command(Flush(words, word), ""))
    else if s[0] == ' ' || s[0] == '\t' then Scan(s[1..], Flush(words, word), None)
    else if s[0] == '\'' then ScanQuoted(s[1..], words, word.GetOr(""))
    else if s[0] == '\\' then
      // Section 2.2.1: the next character is literal, except that backslash-newline disappears.
      if |s| == 1 || s[1] == '\0' then None
      else if s[1] == '\n' then Scan(s[2..], words, word)
      else Scan(s[2..], words, Some(word.GetOr("") + [s[1]]))
    else if IsOperatorChar(s[0]) then Some(Command(Flush(words, word), s))
    else if IsUnmodelled(s[0]) then None
    else Scan(s[1..], words, Some(word.GetOr("") + [s[0]]))
  }

  /** Section 2.2.2: everything up to the next single quote is literal. */
  function ScanQuoted(s: string, words: seq<string>, word: string): Option<Command>
    decreases |s|
  {
    if s == "" || s[0] == '\0' then None
    else if s[0] == '\'' then Scan(s[1..], words, Some(word))
    else ScanQuoted(s[1..], words, word + [s[0]])
  }

  function FirstCommand(s: string): Option<Command> {
    Scan(s, [], None)
  }

  predicate NulFree(s: string) {
    '\0' !in s
  }

  // ----- quoting is read back -----

  lemma {:induction false} SafeIsRead(value: string, rest: string, words: seq<string>, word: Option<string>)
    requires AllSafe(value) && value != ""
    ensures Scan(value + rest, words, word) == Scan(rest, words, Some(word.GetOr("") + value))
    decreases |value|
  {
    var s, next := value + rest, Some(word.GetOr("") + [value[0]]);
    assert SafeShellChar(value[0]) && s[0] == value[0];
    assert s[1..] == value[1..] + rest;
    if |value| == 1 {
      assert value[1..] + rest == rest && value == [value[0]];
    } else {
      SafeIsRead(value[1..], rest, words, next);
      assert (word.GetOr("") + [value[0]]) + value[1..] == word.GetOr("") + value;
    }
  }

  lemma {:induction false} EscapedIsRead(value: string, rest: string, words: seq<string>, word: string)
    requires NulFree(value)
    ensures ScanQuoted(Escape(value) + "'" + rest, words, word) == Scan(rest, words, Some(word + value))
    decreases |value|
  {
    var tail := "'" + rest;
    var s := Escape(value) + "'" + rest;
    if value == "" {
      assert s == tail && tail[1..] == rest && word + value == word;
    } else {
      EscapedIsRead(value[1..], rest, words, word + [value[0]]);
      assert (word + [value[0]]) + value[1..] == word + value;
      assert value[0] in value;
      var more := Escape(value[1..]) + "'" + rest;
      if value[0] == '\'' {
        assert s == "'\\''" + more;
        assert s[1..] == "\\''" + more;
        assert s[1..][2..] == "'" + more;
        assert s[1..][2..][1..] == more;
        assert ScanQuoted(s, words, word) == Scan("\\''" + more, words, Some(word));
        assert Scan("\\''" + more, words, Some(word)) == Scan("'" + more, words, Some(word + ['\'']));
        assert Scan("'" + more, words, Some(word + ['\''])) == ScanQuoted(more, words, word + ['\'']);
      } else {
        assert s == [value[0]] + more;
        assert s[1..] == more;
      }
    }
  }

  lemma EmptyIsRead(rest: string, words: seq<string>, word: Option<string>)
    ensures Scan("''" + rest, words, word) == Scan(rest, words, Some(word.GetOr("")))
  {
    var s := "''" + rest;
    assert s[1..] == "'" + rest && s[1..][1..] == rest;
  }

  lemma UnsafeIsRead(value: string, rest: string, words: seq<string>, word: Option<string>)
    requires NulFree(value)
    ensures Scan("'" + Escape(value) + "'" + rest, words, word) == Scan(rest, words, Some(word.GetOr("") + value))
  {
    var s, tail := "'" + Escape(value) + "'" + rest, Escape(value) + "'" + rest;
    assert s[1..] == tail;
    assert Scan(s, words, word) == ScanQuoted(tail, words, word.GetOr(""));
    EscapedIsRead(value, rest, words, word.GetOr(""));
  }

  /** Wherever it stands, a quoted value adds exactly the value to the word being read. */
  lemma QuotedIsRead(value: string, rest: string, words: seq<string>, word: Option<string>)
    requires NulFree(value)
    ensures Scan(ShellQuote(value) + rest, words, word) == Scan(rest, words, Some(word.GetOr("") + value))
  {
    if value == "" {
      EmptyIsRead(rest, words, word);
      assert word.GetOr("") + value == word.GetOr("");
    } else if AllSafe(value) {
      SafeIsRead(value, rest, words, word);
    } else {
      UnsafeIsRead(value, rest, words, word);
    }
  }

  /** For every NUL-free string the shell reads shellQuote(value) as the one word value. */
  lemma QuotedIsOneWord(value: string)
    requires NulFree(value)
    ensures FirstCommand(ShellQuote(value)) == Some(Command([value], ""))
  {
    QuotedIsRead(value, "", [], None);
    assert ShellQuote(value) + "" == ShellQuote(value) && "" + value == value;
    assert [] + [value] == [value];
  }

  /** A safe word followed by a blank is a word of its own. */
  lemma PlainWord(plain: string, rest: string, words: seq<string>)
    requires AllSafe(plain) && plain != ""
    ensures Scan(plain + " " + rest, words, None) == Scan(rest, words + [plain], None)
  {
    assert plain + " " + rest == plain + (" " + rest);
    SafeIsRead(plain, " " + rest, words, None);
    assert "" + plain == plain && (" " + rest)[1..] == rest;
  }

  lemma LastWord(value: string, words: seq<string>)
    requires NulFree(value)
    ensures Scan(ShellQuote(value), words, None) == Some(Command(words + [value], ""))
  {
    QuotedIsRead(value, "", words, None);
    assert ShellQuote(value) + "" == ShellQuote(value) && "" + value == value;
  }

  /** The command line given to ssh is read as bash, -lc and the exact remote command. */
  lemma NestedIsRead(remote: string)
    requires NulFree(remote)
    ensures FirstCommand("bash -lc " + ShellQuote(remote)) == Some(Command(["bash", "-lc", remote], ""))
  {
    assert "bash -lc " + ShellQuote(remote) == "bash" + " " + ("-lc" + " " + ShellQuote(remote));
    PlainWord("bash", "-lc" + " " + ShellQuote(remote), []);
    PlainWord("-lc", ShellQuote(remote), ["bash"]);
    LastWord(remote, ["bash", "-lc"]);
    assert [] + ["bash"] == ["bash"] && ["bash"] + ["-lc"] == ["bash", "-lc"];
    assert ["bash", "-lc"] + [remote] == ["bash", "-lc", remote];
  }

  lemma AndIsRead(command: string, words: seq<string>, word: string)
    ensures Scan(" && " + command, words, Some(word)) == Some(Command(words + [word], "&& " + command))
  {
    assert (" && " + command)[1..] == "&& " + command;
  }

  lemma RemoteParts(dir: string, command: string)
    requires !IsBlank(dir)
    ensures RemoteCommand(dir, command) == "cd" + " " + (ShellQuote(dir) + (" && " + command))
  {
  }

  /** The remote command changes to exactly `dir`, and then runs the command under the && operator. */
  lemma RemoteChangesDirectory(dir: string, command: string)
    requires NulFree(dir) && !IsBlank(dir)
    ensures FirstCommand(RemoteCommand(dir, command)) == Some(Command(["cd", dir], "&& " + command))
  {
    var rest := " && " + command;
    RemoteParts(dir, command);
    PlainWord("cd", ShellQuote(dir) + rest, []);
    QuotedIsRead(dir, rest, ["cd"], None);
    assert [] + ["cd"] == ["cd"] && "" + dir == dir;
    AndIsRead(command, ["cd"], dir);
    assert ["cd"] + [dir] == ["cd", dir];
  }

  /** The removal command names exactly the path, after the end of the options. */
  lemma RemovalIsRead(path: string)
    requires NulFree(path)
    ensures FirstCommand("rm -rf -- " + ShellQuote(path)) == Some(Command(["rm", "-rf", "--", path], ""))
  {
    var quoted := ShellQuote(path);
    assert "rm -rf -- " + quoted == "rm" + " " + ("-rf" + " " + ("--" + " " + quoted));
    PlainWord("rm", "-rf" + " " + ("--" + " " + quoted), []);
    PlainWord("-rf", "--" + " " + quoted, ["rm"]);
    PlainWord("--", quoted, ["rm", "-rf"]);
    LastWord(path, ["rm", "-rf", "--"]);
    assert [] + ["rm"] == ["rm"] && ["rm"] + ["-rf"] == ["rm", "-rf"] && ["rm", "-rf"] + ["--"] == ["rm", "-rf", "--"];
    assert ["rm", "-rf", "--"] + [path] == ["rm", "-rf", "--", path];
  }

  lemma EqualsIsRead(rest: string, words: seq<string>, word: string)
    ensures Scan("=" + rest, words, Some(word)) == Scan(rest, words, Some(word + ['=']))
  {
    assert ("=" + rest)[1..] == rest;
  }

  /** An assignment word, such as the one of the ensure script, holds exactly the path and ends at the newline. */
  lemma AssignmentIsRead(name: string, path: string, script: string)
    requires NulFree(path) && AllSafe(name) && name != ""
    ensures FirstCommand(name + "=" + ShellQuote(path) + "\n" + script)
            == Some(Command([name + "=" + path], "\n" + script))
  {
    var line, rest := name + "=" + ShellQuote(path) + "\n" + script, "\n" + script;
    var s := ShellQuote(path) + rest;
    assert line == name + ("=" + s);
    SafeIsRead(name, "=" + s, [], None);
    assert "" + name == name;
    EqualsIsRead(s, [], name);
    QuotedIsRead(path, rest, [], Some(name + ['=']));
    LineEnds(script, [], name + ['='] + path);
    assert [] + [name + ['='] + path] == [name + "=" + path];
  }

  lemma LineEnds(script: string, words: seq<string>, word: string)
    ensures Scan("\n" + script, words, Some(word)) == Some(Command(words + [word], "\n" + script))
  {
    assert ("\n" + script)[0] == '\n';
  }

  // ----- host and port -----

  predicate IsPort(s: string) {
    s != "" && forall i :: 0 <= i < |s| ==> '0' <= s[i] <= '9'
  }

  function IndexOf(s: string, c: char): (i: int)
    ensures -1 <= i < |s| && (i >= 0 ==> s[i] == c) && (forall k :: 0 <= k < (if i < 0 then |s| else i) ==> s[k] != c)
  {
    if s == "" then -1
    else if s[0] == c then 0
    else
      var i := IndexOf(s[1..], c);
      if i < 0 then -1 else i + 1
  }

  function LastIndexOf(s: string, c: char): (i: int)
    ensures -1 <= i < |s| && (i >= 0 ==> s[i] == c) && forall k :: i < k < |s| ==> s[k] != c
  {
    if s == "" then -1
    else if s[|s| - 1] == c then |s| - 1
    else LastIndexOf(s[..|s| - 1], c)
  }

  /** What follows the user name, which ends at the last @. */
  function Destination(target: string): string {
    target[LastIndexOf(target, '@') + 1..]
  }

  /** A bracketed address, or a name without colons. */
  predicate IsHostName(d: string) {
    d != "" && if d[0] == '[' then IndexOf(d, ']') == |d| - 1 else ':' !in d
  }

  predicate CanSplit(host: string, target: string, port: string) {
    host == target + ":" + port && IsPort(port) && IsHostName(Destination(target))
  }

  /** The split of host into target and port where there is one, and host itself where there is none. */
  ghost predicate IsSplit(host: string, target: string, port: string) {
    && (port == "" ==> target == host)
    && (port != "" ==> CanSplit(host, target, port))
    && (forall t: string, p: string :: CanSplit(host, t, p) ==> t == target && p == port)
  }

  lemma SameDestination(target: string, port: string)
    requires IsPort(port)
    ensures Destination(target + ":" + port) == Destination(target) + ":" + port
    ensures LastIndexOf(target + ":" + port, '@') == LastIndexOf(target, '@')
  {
    var host, at := target + ":" + port, LastIndexOf(target, '@');
    forall k | at < k < |host| ensures host[k] != '@' {
      if k > |target| {
        assert host[k] == port[k - |target| - 1];
      }
    }
    assert at >= 0 ==> host[at] == '@';
    assert host[at + 1..] == target[at + 1..] + ":" + port;
  }

  /** The separator is the last colon, so there is at most one split. */
  lemma SeparatorIsLastColon(host: string, target: string, port: string)
    requires CanSplit(host, target, port)
    ensures |target| == LastIndexOf(host, ':') && target == host[..|target|] && port == host[|target| + 1..]
  {
    assert host[|target|] == ':';
    forall k | |target| < k < |host| ensures host[k] != ':' {
      assert host[k] == port[k - |target| - 1];
    }
  }

  method SplitHostPort(host: string) returns (target: string, port: string)
    ensures IsSplit(host, target, port)
  {
    var prefix, destination := "", host;
    var at := LastIndexOf(host, '@');
    if at >= 0 {
      prefix, destination := host[..at + 1], host[at + 1..];
    }
    if destination != "" && destination[0] == '[' {
      target, port := SplitBracketed(host, prefix, destination);
    } else {
      target, port := SplitPlain(host, prefix, destination);
    }
  }

  method SplitBracketed(host: string, prefix: string, destination: string) returns (target: string, port: string)
    requires host == prefix + destination && destination == Destination(host) && destination != "" && destination[0] == '['
    ensures IsSplit(host, target, port)
  {
    var end := IndexOf(destination, ']');
    if end > 0 && |destination| > end + 1 && destination[end + 1] == ':' {
      port := destination[end + 2..];
      if IsPort(port) {
        target := prefix + destination[..end + 1];
        BracketedSplit(host, prefix, destination, end);
        OnlySplit(host, target, port);
        return;
      }
    }
    BracketedRefused(host, destination, end);
    return host, "";
  }

  method SplitPlain(host: string, prefix: string, destination: string) returns (target: string, port: string)
    requires host == prefix + destination && destination == Destination(host) && (destination == "" || destination[0] != '[')
    ensures IsSplit(host, target, port)
  {
    var colon := LastIndexOf(destination, ':');
    if colon <= 0 || colon == |destination| - 1 || ':' in destination[..colon] || !IsPort(destination[colon + 1..]) {
      PlainRefused(host, destination, colon);
      return host, "";
    }
    target, port := prefix + destination[..colon], destination[colon + 1..];
    PlainSplit(host, prefix, destination, colon);
    OnlySplit(host, target, port);
  }

  lemma OnlySplit(host: string, target: string, port: string)
    requires CanSplit(host, target, port)
    ensures IsSplit(host, target, port)
  {
    SeparatorIsLastColon(host, target, port);
    forall t: string, p: string | CanSplit(host, t, p) ensures t == target && p == port {
      SeparatorIsLastColon(host, t, p);
    }
  }

  lemma CancelRight(a: string, b: string, c: string)
    requires a + c == b + c
    ensures a == b
  {
    assert |a| == |b| && a == (a + c)[..|a|] && b == (b + c)[..|b|];
  }

  /** Splitting the destination of a host before its port splits the host there. */
  lemma SplitAt(host: string, prefix: string, d: string, name: string, port: string)
    requires host == prefix + d && d == Destination(host) && d == name + ":" + port && IsPort(port)
    ensures host == prefix + name + ":" + port && Destination(prefix + name) == name
  {
    assert host == prefix + name + ":" + port;
    SameDestination(prefix + name, port);
    assert Destination(prefix + name) + (":" + port) == name + (":" + port);
    CancelRight(Destination(prefix + name), name, ":" + port);
  }

  lemma BracketedSplit(host: string, prefix: string, d: string, end: int)
    requires host == prefix + d && d == Destination(host) && d != "" && d[0] == '['
    requires end == IndexOf(d, ']') && end > 0 && |d| > end + 1 && d[end + 1] == ':' && IsPort(d[end + 2..])
    ensures CanSplit(host, prefix + d[..end + 1], d[end + 2..])
  {
    assert d == d[..end + 1] + ":" + d[end + 2..];
    SplitAt(host, prefix, d, d[..end + 1], d[end + 2..]);
    FirstAtEnd(d, end);
  }

  lemma FirstAtEnd(d: string, end: int)
    requires end == IndexOf(d, ']') && end >= 0
    ensures IndexOf(d[..end + 1], ']') == end
  {
    assert d[..end + 1][end] == ']';
  }

  lemma BracketedName(d: string, name: string, p: string)
    requires d == name + ":" + p && IsPort(p) && IsHostName(name) && d[0] == '['
    ensures IndexOf(d, ']') == |name| - 1 && |name| > 1 && d[|name|] == ':' && d[|name| + 1..] == p
  {
    assert d[0] == name[0];
    assert name[|name| - 1] == ']' && d[|name| - 1] == ']';
    assert forall k :: 0 <= k < |name| - 1 ==> d[k] == name[k];
  }

  /** What a split of a host with a bracketed address looks like. */
  lemma BracketedShape(host: string, t: string, p: string)
    requires CanSplit(host, t, p)
    requires var d := Destination(host); d != "" && d[0] == '['
    ensures var d := Destination(host); var end := IndexOf(d, ']');
            end > 0 && |d| > end + 1 && d[end + 1] == ':' && IsPort(d[end + 2..])
  {
    SameDestination(t, p);
    BracketedName(Destination(host), Destination(t), p);
  }

  lemma BracketedRefused(host: string, d: string, end: int)
    requires d == Destination(host) && d != "" && d[0] == '[' && end == IndexOf(d, ']')
    requires !(end > 0 && |d| > end + 1 && d[end + 1] == ':' && IsPort(d[end + 2..]))
    ensures IsSplit(host, host, "")
  {
    forall t: string, p: string ensures !CanSplit(host, t, p) {
      if CanSplit(host, t, p) { BracketedShape(host, t, p); }
    }
  }

  lemma PlainSplit(host: string, prefix: string, d: string, colon: int)
    requires host == prefix + d && d == Destination(host) && d != "" && d[0] != '['
    requires colon == LastIndexOf(d, ':') && 0 < colon < |d| - 1 && ':' !in d[..colon] && IsPort(d[colon + 1..])
    ensures CanSplit(host, prefix + d[..colon], d[colon + 1..])
  {
    assert d == d[..colon] + ":" + d[colon + 1..];
    SplitAt(host, prefix, d, d[..colon], d[colon + 1..]);
  }

  lemma PlainName(d: string, name: string, p: string)
    requires d == name + ":" + p && IsPort(p) && IsHostName(name) && d[0] != '['
    ensures LastIndexOf(d, ':') == |name| && 0 < |name| < |d| - 1 && ':' !in d[..|name|] && d[|name| + 1..] == p
  {
    assert d[0] == name[0];
    assert d[|name|] == ':' && d[..|name|] == name;
    forall k | |name| < k < |d| ensures d[k] != ':' {
      assert d[k] == p[k - |name| - 1];
    }
  }

  /** What a split of a host without a bracketed address looks like. */
  lemma PlainShape(host: string, t: string, p: string)
    requires CanSplit(host, t, p)
    requires var d := Destination(host); d == "" || d[0] != '['
    ensures var d := Destination(host); var colon := LastIndexOf(d, ':');
            0 < colon < |d| - 1 && ':' !in d[..colon] && IsPort(d[colon + 1..])
  {
    SameDestination(t, p);
    PlainName(Destination(host), Destination(t), p);
  }

  lemma PlainRefused(host: string, d: string, colon: int)
    requires d == Destination(host) && (d == "" || d[0] != '[') && colon == LastIndexOf(d, ':')
    requires colon <= 0 || colon == |d| - 1 || ':' in d[..colon] || !IsPort(d[colon + 1..])
    ensures IsSplit(host, host, "")
  {
    forall t: string, p: string ensures !CanSplit(host, t, p) {
      if CanSplit(host, t, p) { PlainShape(host, t, p); }
    }
  }

  // ----- the ssh command line -----

  /** The arguments of ssh; `config` is the configuration path the environment names, if it does. */
  method BuildSSHArgs(host: string, dir: string, command: string, config: Option<string>)
    returns (args: seq<string>, ghost target: string, ghost port: string)
    ensures IsSplit(Trim(host), target, port)
    ensures |args| >= 3
            && args[..|args| - 2]
               == ["-T"] + (if config.Some? && Trim(config.value) != "" then ["-F", config.value] else [])
                  + (if port == "" then [] else ["-p", port])
    ensures args[|args| - 2] == target
    ensures NulFree(RemoteCommand(dir, command)) ==>
              FirstCommand(args[|args| - 1]) == Some(Command(["bash", "-lc", RemoteCommand(dir, command)], ""))
  {
    var destination, p := SplitHostPort(Trim(host));
    target, port := destination, p;
    args := ["-T"];
    if config.Some? && !IsBlank(config.value) {
      args := args + ["-F", config.value];
    }
    if p != "" {
      args := args + ["-p", p];
    }
    var remoteCommand := Remote(dir, command);
    ghost var flags := args;
    args := args + [destination, "bash -lc " + ShellQuote(remoteCommand)];
    assert args[..|args| - 2] == flags;
    if NulFree(remoteCommand) { NestedIsRead(remoteCommand); }
  }

  method Remote(dir: string, command: string) returns (remoteCommand: string)
    ensures remoteCommand == RemoteCommand(dir, command)
  {
    remoteCommand := command;
    if !IsBlank(dir) {
      remoteCommand := "cd " + ShellQuote(dir) + " && " + command;
    }
  }
}
