/**
 * The contact store `CONTACTS` as a value, and the command handlers of main.py that use it:
 * `AddContact` and `ChangeContact` map the store and the argument list to the new store and
 * an `Outcome`, `LookupPhone` returns an `Outcome`, and `ShowAll` returns the listing text.
 * The hello and exit handlers are constant texts and live in `Dispatch.RunHandler`, which lifts
 * every handler to the shape (store, arguments) to (new store, `Outcome`).
 */
module Handlers {
  import opened Wrappers
  import opened Phone
  import Strings

  /** One record `{"name": ..., "phone": ...}` of the store. */
  datatype Contact = Contact(name: string, phone: string)

  /** What a handler body produces: its text, or the IndexError of reading a missing argument. */
  datatype Outcome = Reply(text: string) | MissingArgument

  /** INDEX_NOT_FOUND */
  const IndexNotFound: int := -1

  const HelloMsg := "How can I help you?"
  const ContactExistsMsg := "Contact exists, use \"change\" command"
  const AddedMsg := "Contact successfully added."
  const ChangedMsg := "Contact successfully changed."
  const NotFoundMsg := "Contact not found."
  const NoContactsMsg := "I do not have any contacts yet."
  /** GOOD_BYE_MSG */
  const GoodByeMsg := "Good bye!"

  // ---------------------------------------------------------------------------
  // Lookup

  /** `contact_index(name)`: the position of the first contact called `name`, or IndexNotFound. */
  function IndexOf(cs: seq<Contact>, name: string): (i: int)
    ensures i == IndexNotFound || 0 <= i < |cs|
    ensures i == IndexNotFound <==> forall k :: 0 <= k < |cs| ==> cs[k].name != name
    ensures 0 <= i ==> cs[i].name == name && forall k :: 0 <= k < i ==> cs[k].name != name
  {
    if cs == [] then IndexNotFound
    else if cs[0].name == name then 0
    else
      var j := IndexOf(cs[1..], name);
      if j == IndexNotFound then IndexNotFound else j + 1
  }

  /** `contact_exists(name)` */
  function HasContact(cs: seq<Contact>, name: string): (b: bool)
    ensures b <==> exists k :: 0 <= k < |cs| && cs[k].name == name
  {
    IndexOf(cs, name) != IndexNotFound
  }

  /** No two contacts share a name. */
  predicate UniqueNames(cs: seq<Contact>)
  {
    forall i, j :: 0 <= i < j < |cs| ==> cs[i].name != cs[j].name
  }

  /** The invariant every reachable store keeps: unique names, sanitised phones. */
  predicate WellFormed(cs: seq<Contact>)
  {
    UniqueNames(cs) && forall k :: 0 <= k < |cs| ==> IsSanitized(cs[k].phone)
  }

  // ---------------------------------------------------------------------------
  // Handlers

  /** `add_handler(data)`: the existence check reads only `data[0]`, so it comes before `data[1]` is needed. */
  function AddContact(cs: seq<Contact>, args: seq<string>): (seq<Contact>, Outcome)
  {
    if |args| == 0 then (cs, MissingArgument)
    else if HasContact(cs, args[0]) then (cs, Reply(ContactExistsMsg))
    else if |args| < 2 then (cs, MissingArgument)
    else match Sanitize(args[1])
      case None => (cs, MissingArgument)
      case Some(p) => (cs + [Contact(args[0], p)], Reply(AddedMsg))
  }

  /** `change_handler(data)`: overwrites the phone of the first contact called `data[0]`. */
  function ChangeContact(cs: seq<Contact>, args: seq<string>): (seq<Contact>, Outcome)
  {
    if |args| == 0 then (cs, MissingArgument)
    else
      var i := IndexOf(cs, args[0]);
      if i == IndexNotFound then (cs, Reply(NotFoundMsg))
      else if |args| < 2 then (cs, MissingArgument)
      else match Sanitize(args[1])
        case None => (cs, MissingArgument)
        case Some(p) => (cs[i := cs[i].(phone := p)], Reply(ChangedMsg))
  }

  /** `phone_handler(data)` */
  function LookupPhone(cs: seq<Contact>, args: seq<string>): Outcome
  {
    if |args| == 0 then MissingArgument
    else
      var i := IndexOf(cs, args[0]);
      if i == IndexNotFound then Reply(NotFoundMsg) else Reply(cs[i].phone)
  }

  /** One line of the listing: `": ".join((name, phone))`. */
  function ContactLine(c: Contact): string
  {
    Strings.Join([c.name, c.phone], ": ")
  }

  /** The listing lines, one per contact, in store order. */
  function Lines(cs: seq<Contact>): (r: seq<string>)
    ensures |r| == |cs|
    ensures forall k :: 0 <= k < |cs| ==> r[k] == ContactLine(cs[k])
  {
    if cs == [] then [] else Lines(cs[..|cs| - 1]) + [ContactLine(cs[|cs| - 1])]
  }

  /** `show_all_handler()` */
  function ShowAll(cs: seq<Contact>): string
  {
    if cs == [] then NoContactsMsg else Strings.Join(Lines(cs), "\n")
  }

  // ---------------------------------------------------------------------------
  // Properties of the handlers

  lemma ContactLineFormat(c: Contact)
    ensures ContactLine(c) == c.name + ": " + c.phone
  {
    assert [c.name, c.phone][1..] == [c.phone];
    assert Strings.Join([c.phone], ": ") == c.phone;
  }

  /** `add` either leaves the store alone or appends exactly one record, with the sanitised phone; it says which. */
  lemma AddEffect(cs: seq<Contact>, args: seq<string>)
    ensures var (cs', out) := AddContact(cs, args);
      && (out == Reply(AddedMsg) <==> cs' != cs)
      && (cs' != cs ==> |args| >= 2 && !HasContact(cs, args[0]) && Sanitize(args[1]).Some?
                        && cs' == cs + [Contact(args[0], Sanitize(args[1]).value)])
      && (|args| >= 2 && !HasContact(cs, args[0]) && Sanitize(args[1]).Some? ==> cs' != cs)
  {
  }

  /** `add` on a name already present answers that it exists and changes nothing. */
  lemma AddExisting(cs: seq<Contact>, args: seq<string>)
    requires |args| >= 1 && HasContact(cs, args[0])
    ensures AddContact(cs, args) == (cs, Reply(ContactExistsMsg))
  {
  }

  /** `add` keeps names unique and phones sanitised, and grows the store by at most one. */
  lemma AddPreservesWellFormed(cs: seq<Contact>, args: seq<string>)
    requires WellFormed(cs)
    ensures var cs' := AddContact(cs, args).0;
      WellFormed(cs') && |cs| <= |cs'| <= |cs| + 1 && cs'[..|cs|] == cs
  {
    var cs' := AddContact(cs, args).0;
    if cs' != cs {
      assert cs'[..|cs|] == cs;
    }
  }

  /** Adding the same arguments twice creates at most one record. */
  lemma AddTwice(cs: seq<Contact>, args: seq<string>)
    ensures var once := AddContact(cs, args).0;
      AddContact(once, args).0 == once
  {
    var once := AddContact(cs, args).0;
    if once != cs {
      assert once[|cs|].name == args[0];
    }
  }

  /** A contact that was just added is found by `phone` with exactly the sanitised number. */
  lemma AddThenLookup(cs: seq<Contact>, name: string, raw: string)
    requires AddContact(cs, [name, raw]).1 == Reply(AddedMsg)
    ensures LookupPhone(AddContact(cs, [name, raw]).0, [name]) == Reply(Sanitize(raw).value)
  {
    var cs' := AddContact(cs, [name, raw]).0;
    assert cs'[|cs|].name == name;
  }

  /** `change` on an absent name answers "Contact not found." and changes nothing. */
  lemma ChangeAbsent(cs: seq<Contact>, args: seq<string>)
    requires |args| >= 1 && !HasContact(cs, args[0])
    ensures ChangeContact(cs, args) == (cs, Reply(NotFoundMsg))
  {
  }

  /** `change` keeps length, order and names, and touches no record but the named one. */
  lemma ChangeEffect(cs: seq<Contact>, args: seq<string>)
    ensures var (cs', out) := ChangeContact(cs, args);
      && |cs'| == |cs|
      && (forall k :: 0 <= k < |cs| ==> cs'[k].name == cs[k].name)
      && (forall k :: 0 <= k < |cs| && (args == [] || cs[k].name != args[0]) ==> cs'[k] == cs[k])
      && (out != Reply(ChangedMsg) ==> cs' == cs)
      && (out == Reply(ChangedMsg) ==> HasContact(cs, args[0]) && |args| >= 2 && Sanitize(args[1]).Some?)
  {
  }

  /** `change` of a present name with a phone that sanitises succeeds and stores the sanitised phone there. */
  lemma ChangePresent(cs: seq<Contact>, args: seq<string>)
    requires |args| >= 2 && HasContact(cs, args[0]) && Sanitize(args[1]).Some?
    ensures var (cs', out) := ChangeContact(cs, args);
      out == Reply(ChangedMsg) && cs'[IndexOf(cs, args[0])].phone == Sanitize(args[1]).value
  {
  }

  /** `change` keeps the store well-formed. */
  lemma ChangePreservesWellFormed(cs: seq<Contact>, args: seq<string>)
    requires WellFormed(cs)
    ensures WellFormed(ChangeContact(cs, args).0)
  {
    ChangeEffect(cs, args);
  }

  /** After a successful `change`, `phone` reads back the newly sanitised number. */
  lemma ChangeThenLookup(cs: seq<Contact>, name: string, raw: string)
    requires ChangeContact(cs, [name, raw]).1 == Reply(ChangedMsg)
    ensures LookupPhone(ChangeContact(cs, [name, raw]).0, [name]) == Reply(Sanitize(raw).value)
  {
    ChangeEffect(cs, [name, raw]);
  }

  /** In a store with unique names, `phone` returns the phone of the contact so named. */
  lemma LookupFinds(cs: seq<Contact>, k: nat, args: seq<string>)
    requires UniqueNames(cs) && k < |cs|
    requires |args| >= 1 && args[0] == cs[k].name
    ensures LookupPhone(cs, args) == Reply(cs[k].phone)
  {
  }

  /** `phone` on an absent name answers "Contact not found."; only an empty argument list raises. */
  lemma LookupOutcomes(cs: seq<Contact>, args: seq<string>)
    ensures LookupPhone(cs, args) == MissingArgument <==> args == []
    ensures |args| >= 1 && !HasContact(cs, args[0]) ==> LookupPhone(cs, args) == Reply(NotFoundMsg)
  {
  }

  /** The listing grows at its end: contacts are listed in insertion order. */
  lemma {:induction false} ShowAllAppend(cs: seq<Contact>, c: Contact)
    requires cs != []
    ensures ShowAll(cs + [c]) == ShowAll(cs) + "\n" + ContactLine(c)
  {
    assert (cs + [c])[..|cs|] == cs;
    Strings.JoinSnoc(Lines(cs), ContactLine(c), "\n");
  }

  /** A store holding one contact is listed as its single `name: phone` line. */
  lemma ShowAllSingle(c: Contact)
    ensures ShowAll([c]) == c.name + ": " + c.phone
  {
    ContactLineFormat(c);
  }
}
