/**
 * Splitting an input line into a command and its arguments (the `for` loop in `main`):
 * the shortest space-joined prefix of tokens that is a key of `COMMANDS` wins.
 */
module Tokenizer {
  import opened Wrappers
  import opened Registry
  import Strings

  /** `' '.join(parts[:n])`: the candidate command made of the first `n` tokens. */
  function Prefix(parts: seq<string>, n: nat): string
    requires 1 <= n <= |parts|
  {
    Strings.Join(parts[..n], " ")
  }

  /** The shortest prefix length, at least `n`, whose prefix is a command; None if there is none. */
  function MatchFrom(parts: seq<string>, n: nat): (m: Option<nat>)
    requires n >= 1
    decreases |parts| + 1 - n
    ensures m.Some? ==> n <= m.value <= |parts| && Prefix(parts, m.value) in Commands
    ensures m.Some? ==> forall j :: n <= j < m.value ==> Prefix(parts, j) !in Commands
    ensures m.None? ==> forall j :: n <= j <= |parts| ==> Prefix(parts, j) !in Commands
  {
    if n > |parts| then None
    else if Prefix(parts, n) in Commands then Some(n)
    else MatchFrom(parts, n + 1)
  }

  /**
   * `(command, data)` as `main` leaves them: the matched key and the remaining
   * tokens, or, when nothing matches, the last prefix tried and no data.
   */
  function Parse(line: string): (r: (string, Option<seq<string>>))
    ensures r.1.Some? <==> r.0 in Commands
  {
    var parts := Strings.Split(line, ' ');
    match MatchFrom(parts, 1)
    case Some(n) => (Prefix(parts, n), Some(parts[n..]))
    case None => (Prefix(parts, |parts|), None)
  }

  /** The tokenising loop of `main`, trying prefixes of 1, 2, 3, ... tokens. */
  method Tokenize(line: string) returns (command: string, data: Option<seq<string>>)
    ensures (command, data) == Parse(line)
  {
    var parts := Strings.Split(line, ' ');
    command, data := "", None;
    for i := 0 to |parts|
      invariant i > 0 ==> command == Prefix(parts, i)
      invariant forall j :: 1 <= j <= i ==> Prefix(parts, j) !in Commands
    {
      command := Strings.Join(parts[..i + 1], " ");
      if command in Commands {
        data := Some(parts[i + 1..]);
        assert command == Prefix(parts, i + 1);
        assert MatchFrom(parts, 1) == Some(i + 1);
        return;
      }
    }
    assert parts[..|parts|] == parts;
  }

  /** A line that matches no command keeps the whole line as its command. */
  lemma ParseUnmatched(line: string)
    ensures Parse(line).1.None? ==> Parse(line).0 == line
  {
    var parts := Strings.Split(line, ' ');
    assert parts[..|parts|] == parts;
    Strings.JoinSplit(line, ' ');
  }

  /**
   * A line made of the tokens of a command followed by argument tokens parses
   * to that command and those arguments, provided no shorter run of the
   * command's tokens is itself a command (the shortest match wins).
   */
  lemma ParseCommandLine(cmd: seq<string>, args: seq<string>)
    requires |cmd| >= 1
    requires forall k :: 0 <= k < |cmd| ==> ' ' !in cmd[k]
    requires forall k :: 0 <= k < |args| ==> ' ' !in args[k]
    requires Strings.Join(cmd, " ") in Commands
    requires forall n :: 1 <= n < |cmd| ==> Strings.Join(cmd[..n], " ") !in Commands
    ensures Parse(Strings.Join(cmd + args, " ")) == (Strings.Join(cmd, " "), Some(args))
  {
    var parts := cmd + args;
    Strings.SplitJoin(parts, ' ');
    assert Strings.Split(Strings.Join(parts, " "), ' ') == parts;
    forall n | 1 <= n <= |cmd|
      ensures Prefix(parts, n) == Strings.Join(cmd[..n], " ")
    {
      assert parts[..n] == cmd[..n];
    }
    assert cmd[..|cmd|] == cmd;
    assert parts[|cmd|..] == args;
    var m := MatchFrom(parts, 1);
    assert m == Some(|cmd|);
  }

  /** A line none of whose token prefixes is a command parses to no data. */
  lemma ParseNoCommand(parts: seq<string>)
    requires |parts| >= 1
    requires forall k :: 0 <= k < |parts| ==> ' ' !in parts[k]
    requires forall n :: 1 <= n <= |parts| ==> Prefix(parts, n) !in Commands
    ensures Parse(Strings.Join(parts, " ")).1 == None
  {
    Strings.SplitJoin(parts, ' ');
    assert Strings.Split(Strings.Join(parts, " "), ' ') == parts;
    NoMatch(parts);
  }

  /** When no prefix is a command, the search finds none. */
  lemma NoMatch(parts: seq<string>)
    requires forall j :: 1 <= j <= |parts| ==> Prefix(parts, j) !in Commands
    ensures MatchFrom(parts, 1) == None
  {
  }

  /** A first token that is a command wins outright; every later token is an argument. */
  lemma ParseFirstToken(parts: seq<string>)
    requires |parts| >= 1 && parts[0] in Commands
    requires forall k :: 0 <= k < |parts| ==> ' ' !in parts[k]
    ensures Parse(Strings.Join(parts, " ")) == (parts[0], Some(parts[1..]))
  {
    assert parts == [parts[0]] + parts[1..];
    assert Strings.Join([parts[0]], " ") == parts[0];
    ParseCommandLine([parts[0]], parts[1..]);
  }
}
