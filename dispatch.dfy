/**
 * `call_handler` with the `input_error` decorator around it and around each
 * handler, one step of the `main` loop, and a whole session over input lines.
 * Python's exceptions are explicit: a handler's IndexError is Outcome.MissingArgument,
 * call_handler's ValueError and KeyError are the branches of Call.
 */
module Dispatch {
  import opened Wrappers
  import opened Registry
  import opened Handlers
  import opened Tokenizer
  import Phone
  import Strings

  const UnknownCommandMsg := "Unknown command."
  const TooManyArgsMsg := "Too many arguments."
  const ExtraArgsWarning := "Extra arguments discarded.\n"
  const NameAndPhoneMsg := "Specify a name and a phone please."
  const NoPhoneMsg := "Phone number is not specified."
  const NoNameMsg := "Specify a name please."

  /** The undecorated handler a table entry names, run on the store. */
  function RunHandler(h: HandlerKind, cs: seq<Contact>, args: seq<string>): (r: (seq<Contact>, Outcome))
    ensures r.1.MissingArgument? ==> r.0 == cs
    ensures r.1.MissingArgument? ==> h == AddHandler || h == ChangeHandler || (h == PhoneHandler && args == [])
    ensures h != AddHandler && h != ChangeHandler ==> r.0 == cs
  {
    match h
    case HelloHandler => (cs, Reply(HelloMsg))
    case AddHandler => AddContact(cs, args)
    case ChangeHandler => ChangeContact(cs, args)
    case PhoneHandler => (cs, LookupPhone(cs, args))
    case ShowAllHandler => (cs, Reply(ShowAll(cs)))
    case ExitHandler => (cs, Reply(GoodByeMsg))
  }

  /**
   * The IndexError branch of `input_error` for handler `h`. The requires is where
   * that branch returns a message; elsewhere it returns None, which no handler reaches.
   */
  function MissingArgumentText(h: HandlerKind, args: seq<string>): string
    requires h == AddHandler || h == ChangeHandler || args == []
  {
    if h == AddHandler || h == ChangeHandler then
      if args == [] then NameAndPhoneMsg else NoPhoneMsg
    else NoNameMsg
  }

  /** A handler as decorated by `input_error`: an IndexError becomes its message. */
  function Guarded(h: HandlerKind, cs: seq<Contact>, args: seq<string>): (seq<Contact>, string)
  {
    var (cs', out) := RunHandler(h, cs, args);
    match out
    case Reply(text) => (cs', text)
    case MissingArgument => (cs', MissingArgumentText(h, args))
  }

  /**
   * `call_handler((command, data))` as decorated by `input_error`. `main` passes
   * data = None exactly when command is no key, hence the requires (the KeyError
   * the warning check would raise for an unknown command with arguments never arises).
   * An empty argument list is falsy in Python, so the two length tests skip it.
   */
  function Call(cs: seq<Contact>, command: string, data: Option<seq<string>>): (seq<Contact>, string)
    requires data.Some? <==> command in Commands
  {
    if data.Some? && |data.value| > MaxArgs then (cs, TooManyArgsMsg)
    else if command !in Commands then (cs, UnknownCommandMsg)
    else
      var d := Commands[command];
      var warning := if |data.value| > d.argsCount then ExtraArgsWarning else "";
      var (cs', text) := Guarded(d.handler, cs, data.value);
      (cs', warning + text)
  }

  /** One non-blank line of the `main` loop: tokenise, dispatch; the text is what is printed. */
  function Step(cs: seq<Contact>, line: string): (seq<Contact>, string)
  {
    var (command, data) := Parse(line);
    Call(cs, command, data)
  }

  /**
   * The `main` loop over lines already stripped: blank lines are skipped, each
   * other line prints one text, and the loop stops after printing exactly GOOD_BYE_MSG.
   */
  function Run(cs: seq<Contact>, lines: seq<string>): (seq<Contact>, seq<string>)
    decreases |lines|
  {
    if lines == [] then (cs, [])
    else if lines[0] == "" then Run(cs, lines[1..])
    else
      var (cs', out) := Step(cs, lines[0]);
      if out == GoodByeMsg then (cs', [out])
      else
        var (cs'', outs) := Run(cs', lines[1..]);
        (cs'', [out] + outs)
  }

  // ---------------------------------------------------------------------------
  // Argument-count rules and error translation

  /** More than two arguments: exactly "Too many arguments.", no warning, no handler run. */
  lemma CallTooManyArguments(cs: seq<Contact>, command: string, args: seq<string>)
    requires command in Commands && |args| > MaxArgs
    ensures Call(cs, command, Some(args)) == (cs, TooManyArgsMsg)
  {
  }

  /** No command matched: "Unknown command." and the store is untouched. */
  lemma CallUnknownCommand(cs: seq<Contact>, command: string)
    requires command !in Commands
    ensures Call(cs, command, None) == (cs, UnknownCommandMsg)
  {
  }

  /** More arguments than the command uses (but at most two): the warning, then the handler's text. */
  lemma CallExtraArguments(cs: seq<Contact>, command: string, args: seq<string>)
    requires command in Commands && Commands[command].argsCount < |args| <= MaxArgs
    ensures var (cs', text) := Call(cs, command, Some(args));
      && |text| >= |ExtraArgsWarning| && text[..|ExtraArgsWarning|] == ExtraArgsWarning
      && (cs', text[|ExtraArgsWarning|..]) == Guarded(Commands[command].handler, cs, args)
  {
    var (cs', text) := Call(cs, command, Some(args));
    var rest := Guarded(Commands[command].handler, cs, args).1;
    assert text == ExtraArgsWarning + rest;
    assert text[|ExtraArgsWarning|..] == rest;
  }

  /** `add`/`change` without arguments, and `phone` without arguments, name what is missing. */
  lemma CallWithoutArguments(cs: seq<Contact>, command: string)
    requires command in Commands
    ensures Commands[command].handler in {AddHandler, ChangeHandler} ==>
      Call(cs, command, Some([])) == (cs, NameAndPhoneMsg)
    ensures Commands[command].handler == PhoneHandler ==>
      Call(cs, command, Some([])) == (cs, NoNameMsg)
  {
    var h := Commands[command].handler;
    var (cs', text) := Guarded(h, cs, []);
    assert Call(cs, command, Some([])) == (cs', "" + text);
    assert "" + text == text;
  }

  /**
   * A missing phone, or one that sanitises to nothing, is "not specified" for `add` of a
   * new name and `change` of a known one; the store is unchanged.
   */
  lemma CallPhoneNotSpecified(cs: seq<Contact>, command: string, args: seq<string>)
    requires command in Commands && Commands[command].handler in {AddHandler, ChangeHandler}
    requires |args| == 1 || (|args| == 2 && Phone.Sanitize(args[1]).None?)
    requires HasContact(cs, args[0]) <==> Commands[command].handler == ChangeHandler
    ensures Call(cs, command, Some(args)) == (cs, NoPhoneMsg)
  {
    var h := Commands[command].handler;
    assert RunHandler(h, cs, args) == (cs, MissingArgument);
    var (cs', text) := Guarded(h, cs, args);
    assert Call(cs, command, Some(args)) == (cs', "" + text);
    assert "" + text == text;
  }

  /** Every call keeps the store well-formed: names unique, phones sanitised. */
  lemma CallPreservesWellFormed(cs: seq<Contact>, command: string, data: Option<seq<string>>)
    requires data.Some? <==> command in Commands
    requires WellFormed(cs)
    ensures WellFormed(Call(cs, command, data).0)
  {
    if data.Some? && |data.value| <= MaxArgs {
      var h := Commands[command].handler;
      if h == AddHandler {
        AddPreservesWellFormed(cs, data.value);
      } else if h == ChangeHandler {
        ChangePreservesWellFormed(cs, data.value);
      }
    }
  }

  // ---------------------------------------------------------------------------
  // Whole lines

  /** A command matched with no more arguments than it uses prints its handler's text alone. */
  lemma CallPlain(cs: seq<Contact>, command: string, args: seq<string>)
    requires command in Commands && |args| <= Commands[command].argsCount
    ensures Call(cs, command, Some(args)) == Guarded(Commands[command].handler, cs, args)
  {
    var (cs', text) := Guarded(Commands[command].handler, cs, args);
    assert "" + text == text;
  }

  /** The line `add name raw` runs `add_handler` with exactly those two arguments. */
  lemma {:induction false} StepAdd(cs: seq<Contact>, name: string, raw: string)
    requires ' ' !in name && ' ' !in raw
    ensures Step(cs, "add " + name + " " + raw) == Guarded(AddHandler, cs, [name, raw])
  {
    var addLine := ["add", name, raw];
    assert Strings.Join(addLine, " ") == "add " + name + " " + raw by {
      assert addLine[1..] == [name, raw] && addLine[1..][1..] == [raw];
      assert Strings.Join([raw], " ") == raw;
      assert Strings.Join([name, raw], " ") == name + " " + raw;
    }
    ParseFirstToken(addLine);
    CallPlain(cs, "add", [name, raw]);
  }

  /** The line `phone name` runs `phone_handler` with that one argument. */
  lemma {:induction false} StepPhone(cs: seq<Contact>, name: string)
    requires ' ' !in name
    ensures Step(cs, "phone " + name) == Guarded(PhoneHandler, cs, [name])
  {
    var phoneLine := ["phone", name];
    assert Strings.Join(phoneLine, " ") == "phone " + name by {
      assert phoneLine[1..] == [name];
      assert Strings.Join([name], " ") == name;
    }
    ParseFirstToken(phoneLine);
    CallPlain(cs, "phone", [name]);
  }

  /** `add name raw` then `phone name`, typed as lines, reads back the sanitised phone. */
  lemma {:induction false} StepAddThenPhone(cs: seq<Contact>, name: string, raw: string)
    requires ' ' !in name && ' ' !in raw
    requires !HasContact(cs, name) && Phone.Sanitize(raw).Some?
    ensures var p := Phone.Sanitize(raw).value;
      && Step(cs, "add " + name + " " + raw) == (cs + [Contact(name, p)], AddedMsg)
      && Step(cs + [Contact(name, p)], "phone " + name) == (cs + [Contact(name, p)], p)
  {
    var p := Phone.Sanitize(raw).value;
    StepAdd(cs, name, raw);
    AddThenLookup(cs, name, raw);
    StepPhone(cs + [Contact(name, p)], name);
  }

  /** `exit` prints exactly GOOD_BYE_MSG; `exit` with one argument prints the warning first. */
  lemma StepExit(cs: seq<Contact>, arg: string)
    requires ' ' !in arg
    ensures Step(cs, "exit") == (cs, GoodByeMsg)
    ensures Step(cs, "exit " + arg) == (cs, ExtraArgsWarning + GoodByeMsg)
    ensures ExtraArgsWarning + GoodByeMsg != GoodByeMsg
  {
    assert Strings.Join(["exit"], " ") == "exit";
    ParseFirstToken(["exit"]);
    assert ["exit"][1..] == [];
    CallPlain(cs, "exit", []);
    var withArg := ["exit", arg];
    assert Strings.Join(withArg, " ") == "exit " + arg by {
      assert withArg[1..] == [arg];
      assert Strings.Join([arg], " ") == arg;
    }
    ParseFirstToken(withArg);
    assert |ExtraArgsWarning + GoodByeMsg| != |GoodByeMsg|;
  }

  /** `show all` is matched as a two-token command and lists the store. */
  lemma StepShowAll(cs: seq<Contact>)
    ensures Step(cs, "show all") == (cs, ShowAll(cs))
  {
    var cmd := ["show", "all"];
    assert Strings.Join(cmd, " ") == "show all" by {
      assert cmd[1..] == ["all"];
      assert Strings.Join(["all"], " ") == "all";
    }
    assert cmd[..1] == ["show"];
    assert Strings.Join(["show"], " ") == "show";
    assert cmd + [] == cmd;
    ParseCommandLine(cmd, []);
    CallPlain(cs, "show all", []);
  }

  /** A line whose tokens start with no command is "Unknown command.". */
  lemma {:induction false} StepUnknown(cs: seq<Contact>, parts: seq<string>)
    requires |parts| >= 1
    requires forall k :: 0 <= k < |parts| ==> ' ' !in parts[k]
    requires forall n :: 1 <= n <= |parts| ==> Prefix(parts, n) !in Commands
    ensures Step(cs, Strings.Join(parts, " ")) == (cs, UnknownCommandMsg)
  {
    ParseNoCommand(parts);
  }

  // ---------------------------------------------------------------------------
  // Sessions

  /** Unfolds `Run` on its first line; a proof step for `ContactBook.RunSession`. */
  lemma RunFirstLine(cs: seq<Contact>, lines: seq<string>)
    requires lines != []
    ensures lines[0] == "" ==> Run(cs, lines) == Run(cs, lines[1..])
    ensures lines[0] != "" && Step(cs, lines[0]).1 == GoodByeMsg ==> Run(cs, lines) == (Step(cs, lines[0]).0, [GoodByeMsg])
    ensures lines[0] != "" && Step(cs, lines[0]).1 != GoodByeMsg ==>
      var rest := Run(Step(cs, lines[0]).0, lines[1..]);
      Run(cs, lines) == (rest.0, [Step(cs, lines[0]).1] + rest.1)
  {
  }

  /** A session keeps the store well-formed from start to end. */
  lemma {:induction false} RunPreservesWellFormed(cs: seq<Contact>, lines: seq<string>)
    requires WellFormed(cs)
    ensures WellFormed(Run(cs, lines).0)
    decreases |lines|
  {
    if lines != [] {
      if lines[0] == "" {
        RunPreservesWellFormed(cs, lines[1..]);
      } else {
        var (command, data) := Parse(lines[0]);
        CallPreservesWellFormed(cs, command, data);
        var (cs', out) := Step(cs, lines[0]);
        if out != GoodByeMsg {
          RunPreservesWellFormed(cs', lines[1..]);
        }
      }
    }
  }

  /** At most one text per line is printed, and GOOD_BYE_MSG only as the last one. */
  lemma {:induction false} RunStopsAtGoodBye(cs: seq<Contact>, lines: seq<string>)
    ensures var outs := Run(cs, lines).1;
      |outs| <= |lines| && forall k :: 0 <= k < |outs| - 1 ==> outs[k] != GoodByeMsg
    decreases |lines|
  {
    if lines != [] {
      RunStopsAtGoodBye(cs, lines[1..]);
      if lines[0] != "" {
        var (cs', out) := Step(cs, lines[0]);
        RunStopsAtGoodBye(cs', lines[1..]);
      }
    }
  }

  /** The number of non-blank lines. */
  function NonBlank(lines: seq<string>): nat
  {
    if lines == [] then 0 else (if lines[0] == "" then 0 else 1) + NonBlank(lines[1..])
  }

  /** A session that never prints exactly GOOD_BYE_MSG prints one text per non-blank line. */
  lemma {:induction false} RunWithoutGoodBye(cs: seq<Contact>, lines: seq<string>)
    requires GoodByeMsg !in Run(cs, lines).1
    ensures |Run(cs, lines).1| == NonBlank(lines)
    decreases |lines|
  {
    if lines != [] {
      if lines[0] == "" {
        RunWithoutGoodBye(cs, lines[1..]);
      } else {
        var (cs', out) := Step(cs, lines[0]);
        assert out != GoodByeMsg by {
          assert Run(cs, lines).1[0] == out;
        }
        var rest := Run(cs', lines[1..]).1;
        assert Run(cs, lines).1 == [out] + rest;
        assert forall t | t in rest :: t in Run(cs, lines).1;
        RunWithoutGoodBye(cs', lines[1..]);
      }
    }
  }

  /** The lines that are not blank, in order. */
  function DropBlank(lines: seq<string>): (r: seq<string>)
    ensures "" !in r && |r| == NonBlank(lines)
  {
    if lines == [] then []
    else if lines[0] == "" then DropBlank(lines[1..])
    else [lines[0]] + DropBlank(lines[1..])
  }

  /** Blank lines make no difference to a session: only the non-blank ones are run. */
  lemma {:induction false} RunSkipsBlankLines(cs: seq<Contact>, lines: seq<string>)
    ensures Run(cs, lines) == Run(cs, DropBlank(lines))
    decreases |lines|
  {
    if lines != [] {
      var rest := DropBlank(lines[1..]);
      if lines[0] == "" {
        assert DropBlank(lines) == rest;
        RunSkipsBlankLines(cs, lines[1..]);
      } else {
        var d := [lines[0]] + rest;
        assert DropBlank(lines) == d;
        assert d[0] == lines[0] && d[1..] == rest;
        var (cs', out) := Step(cs, lines[0]);
        RunSkipsBlankLines(cs', lines[1..]);
      }
    }
  }

  /** Once GOOD_BYE_MSG has been printed, later lines are never read. */
  lemma {:induction false} RunIgnoresLinesAfterGoodBye(cs: seq<Contact>, lines: seq<string>, more: seq<string>)
    requires var outs := Run(cs, lines).1; outs != [] && outs[|outs| - 1] == GoodByeMsg
    ensures Run(cs, lines + more) == Run(cs, lines)
    decreases |lines|
  {
    assert lines != [];
    assert (lines + more)[0] == lines[0];
    assert (lines + more)[1..] == lines[1..] + more;
    if lines[0] == "" {
      RunIgnoresLinesAfterGoodBye(cs, lines[1..], more);
    } else {
      var (cs', out) := Step(cs, lines[0]);
      if out != GoodByeMsg {
        var outs := Run(cs', lines[1..]).1;
        assert Run(cs, lines).1 == [out] + outs;
        RunIgnoresLinesAfterGoodBye(cs', lines[1..], more);
      }
    }
  }
}
