/**
 * The global `CONTACTS` list as an object whose methods update it in place, the
 * handlers that read and change it, `call_handler` and the `main` loop. Each
 * method is proved to behave as the value-level definition in Handlers or Dispatch.
 */
module Book {
  import opened Wrappers
  import opened Registry
  import opened Handlers
  import opened Tokenizer
  import opened Dispatch
  import Phone
  import Strings

  class ContactBook {
    /** `CONTACTS`, in insertion order. */
    var contacts: seq<Contact>

    /** Names are unique and every stored phone is sanitised. */
    ghost predicate Valid()
      reads this
    {
      WellFormed(contacts)
    }

    /** `CONTACTS = []` */
    constructor ()
      ensures Valid() && contacts == []
    {
      contacts := [];
    }

    /** `add_handler`: appends one record unless the name is taken or an argument is missing. */
    method Add(args: seq<string>) returns (out: Outcome)
      requires Valid()
      modifies this
      ensures Valid()
      ensures (contacts, out) == AddContact(old(contacts), args)
    {
      if |args| == 0 {
        return MissingArgument;
      }
      if IndexOf(contacts, args[0]) != IndexNotFound {
        return Reply(ContactExistsMsg);
      }
      if |args| < 2 {
        return MissingArgument;
      }
      var phone := Phone.Sanitize(args[1]);
      if phone.None? {
        return MissingArgument;
      }
      AddPreservesWellFormed(contacts, args);
      contacts := contacts + [Contact(args[0], phone.value)];
      out := Reply(AddedMsg);
    }

    /** `change_handler`: overwrites the phone of the named record in place. */
    method Change(args: seq<string>) returns (out: Outcome)
      requires Valid()
      modifies this
      ensures Valid()
      ensures (contacts, out) == ChangeContact(old(contacts), args)
    {
      if |args| == 0 {
        return MissingArgument;
      }
      var index := IndexOf(contacts, args[0]);
      if index == IndexNotFound {
        return Reply(NotFoundMsg);
      }
      if |args| < 2 {
        return MissingArgument;
      }
      var phone := Phone.Sanitize(args[1]);
      if phone.None? {
        return MissingArgument;
      }
      ChangePreservesWellFormed(contacts, args);
      contacts := contacts[index := contacts[index].(phone := phone.value)];
      out := Reply(ChangedMsg);
    }

    /** `phone_handler`: the phone of the named record, or "Contact not found.". */
    method Lookup(args: seq<string>) returns (out: Outcome)
      requires Valid()
      ensures out == LookupPhone(contacts, args)
      ensures out == Reply(NotFoundMsg) <==> |args| >= 1 && !HasContact(contacts, args[0])
      ensures out.Reply? && out.text != NotFoundMsg ==>
        exists k :: 0 <= k < |contacts| && contacts[k].name == args[0] && contacts[k].phone == out.text
    {
      if |args| == 0 {
        return MissingArgument;
      }
      var index := IndexOf(contacts, args[0]);
      if index != IndexNotFound {
        assert !Phone.IsPhoneChar(NotFoundMsg[0]);
        out := Reply(contacts[index].phone);
      } else {
        out := Reply(NotFoundMsg);
      }
    }

    /** `show_all_handler`: builds the lines one contact at a time, then joins them. */
    method ListAll() returns (text: string)
      ensures text == ShowAll(contacts)
    {
      var result: seq<string> := [];
      for i := 0 to |contacts|
        invariant result == Lines(contacts[..i])
      {
        assert contacts[..i + 1][..i] == contacts[..i];
        result := result + [ContactLine(contacts[i])];
      }
      assert contacts[..|contacts|] == contacts;
      if result != [] {
        text := Strings.Join(result, "\n");
      } else {
        text := NoContactsMsg;
      }
    }

    /** `call_handler` under `input_error`: argument checks, the handler, its IndexError message. */
    method CallHandler(command: string, data: Option<seq<string>>) returns (text: string)
      requires Valid()
      requires data.Some? <==> command in Commands
      modifies this
      ensures Valid()
      ensures (contacts, text) == Call(old(contacts), command, data)
    {
      var warning := "";
      if data.Some? && |data.value| > 0 && |data.value| > Commands[command].argsCount {
        warning := ExtraArgsWarning;
      }
      if data.Some? && |data.value| > 0 && |data.value| > MaxArgs {
        return TooManyArgsMsg;
      }
      if command !in Commands {
        return UnknownCommandMsg;
      }
      var args := data.value;
      var h := Commands[command].handler;
      var out: Outcome;
      match h {
        case HelloHandler => out := Reply(HelloMsg);
        case AddHandler => out := Add(args);
        case ChangeHandler => out := Change(args);
        case PhoneHandler => out := Lookup(args);
        case ShowAllHandler =>
          var listing := ListAll();
          out := Reply(listing);
        case ExitHandler => out := Reply(GoodByeMsg);
      }
      assert (contacts, out) == RunHandler(h, old(contacts), args);
      match out {
        case Reply(t) => text := warning + t;
        case MissingArgument => text := warning + MissingArgumentText(h, args);
      }
    }

    /** One non-blank line of `main`: tokenise, then call the handler. */
    method ProcessLine(line: string) returns (text: string)
      requires Valid()
      modifies this
      ensures Valid()
      ensures (contacts, text) == Step(old(contacts), line)
    {
      var command, data := Tokenize(line);
      text := CallHandler(command, data);
    }

    /** The `main` loop over stripped input lines: returns what it prints, stopping after GOOD_BYE_MSG. */
    method RunSession(lines: seq<string>) returns (printed: seq<string>)
      requires Valid()
      modifies this
      ensures Valid()
      ensures (contacts, printed) == Run(old(contacts), lines)
    {
      ghost var total := Run(contacts, lines);
      printed := [];
      var i := 0;
      assert lines[i..] == lines;
      assert printed + total.1 == total.1;
      while i < |lines|
        invariant 0 <= i <= |lines|
        invariant Valid()
        invariant total == (Run(contacts, lines[i..]).0, printed + Run(contacts, lines[i..]).1)
      {
        ghost var before, remaining := contacts, lines[i..];
        RunFirstLine(before, remaining);
        assert remaining[0] == lines[i] && remaining[1..] == lines[i + 1..];
        if lines[i] != "" {
          var text := ProcessLine(lines[i]);
          printed := printed + [text];
          if text == GoodByeMsg {
            return;
          }
          ghost var rest := Run(contacts, lines[i + 1..]);
          assert printed + rest.1 == (printed[..|printed| - 1]) + ([text] + rest.1);
        }
        i := i + 1;
      }
      assert lines[i..] == [];
      assert printed + [] == printed;
    }
  }
}
