# Contact book command bot, modelled in Dafny

The program is an interactive command-line contact book (`main.py`). It reads one line
at a time. It finds the command the line starts with: the shortest run of space-separated
tokens that is a key of the `COMMANDS` table. It checks the argument count and runs a
handler against the global `CONTACTS` list of `{name, phone}` records. Python exceptions
raised along the way become user-facing messages. The loop stops when a response is
exactly `Good bye!`.

This project models that core:

- `phone.dfy` (module `Phone`) models the phone sanitiser `sanitize_phone_number`. It keeps
  digits and `+`, keeps the first surviving character as it is, and drops every later `+`.
  The `IndexError` raised when nothing survives is the `None` result.
- `strings.dfy` (module `Strings`) models `str.split(' ')` and `sep.join(...)`, with their
  round-trip lemmas.
- `registry.dfy` (module `Registry`) holds the `COMMANDS` table as a `map` and the argument cap
  `COMMAND_ARGS_MAX_COUNT`.
- `handlers.dfy` (module `Handlers`) defines the store as a value (`seq<Contact>`) and
  `contact_index`/`contact_exists`. It also defines the handlers that use the store:
  - `AddContact` and `ChangeContact` map the store and the argument list to the new store and
    an `Outcome`;
  - `LookupPhone` returns an `Outcome`;
  - `ShowAll` returns the listing text.

  An `Outcome` is either the handler's text or `MissingArgument`, which stands for the
  `IndexError` of reading `data[i]` past the end. `hello` and the exit handlers are constant
  texts. `Dispatch.RunHandler` lifts every handler to the common shape
  (store, arguments) → (new store, `Outcome`).
- `tokenizer.dfy` (module `Tokenizer`) models the tokenising `for` loop of `main`, both as a
  function (`Parse`) and as the loop itself (`Tokenize`).
- `dispatch.dfy` (module `Dispatch`) models `call_handler` together with the `input_error`
  decorator around it and around every handler. It makes the error translation explicit.
  It also defines one step of the `main` loop (`Step`) and a whole session over a sequence
  of lines (`Run`).
- `book.dfy` (module `Book`) models the global `CONTACTS` list as the class `ContactBook`.
  Its methods update `contacts` in place (`append` for `add`, an indexed write for `change`).
  `show all` builds its lines in a loop. `RunSession` is the `main` loop. Each method is
  proved equal to the value-level definition, and each keeps the store invariant `Valid()`:
  names are unique and every stored phone is sanitised.

Three behaviours of `main.py` are easy to miss. The model keeps them as written:

- The sanitiser is partial: with no digit and no `+` in the input, `new_phone[0]` raises
  `IndexError` (main.py:31-33). `add` and `change` then answer "Phone number is not specified."
  and leave the store unchanged.
- `add` checks whether the name exists before it reads the phone (main.py:82-85), so
  `add <existing name>` answers `Contact exists, use "change" command` even with the phone
  missing. Likewise `change` looks the name up first (main.py:97-98), so `change <unknown name>`
  answers "Contact not found." even with the phone missing.
- `exit foo` answers `"Extra arguments discarded.\nGood bye!"`. That is not exactly the
  goodbye text, so the session goes on (main.py:200; `StepExit`, `RunWithoutGoodBye`).

## Model

| member | source | states |
|---|---|---|
| `Phone.KeepPhoneChars` | main.py:28-30 | the filtered string holds only digits and `+`, is no longer than the input, and is empty iff the input has no digit and no `+` |
| `Phone.DropPlus` | main.py:33 | `replace("+", "")` leaves no `+` and only characters of its input |
| `Phone.Sanitize` | main.py:25-36 | fails (the `IndexError`) iff the input has no digit and no `+`; otherwise the result is non-empty, holds only digits and `+`, and has `+` at most at index 0 |
| `Phone.SanitizeCharacterised` | main.py:28-34 | the result is a `+` (exactly when a `+` comes before the first digit) followed by every digit of the input, in order |
| `Phone.SanitizeKeepsOrder` | main.py:28-34 | the result is a subsequence of the input: kept characters keep their relative order |
| `Phone.SanitizeFixedPoints` | main.py:25-36 | the strings the sanitiser returns unchanged are exactly the sanitised ones |
| `Phone.SanitizeIdempotent` | main.py:25-36 | sanitising a sanitised phone gives it back |
| `Phone.KeepPhoneCharsAppend` | main.py:30 | the filter distributes over concatenation |
| `Strings.Join` | main.py:192 | no contract of its own; `sep.join(parts)` as used at main.py:118, 121 and 192. Its behaviour is stated by `JoinSnoc`, `JoinSplit`, `SplitJoin` and `ContactLineFormat` |
| `Strings.Split` | main.py:187 | `split(' ')` yields at least one piece and no piece contains a space |
| `Strings.JoinSplit` | main.py:187-192 | joining the pieces of a split with the separator restores the line |
| `Strings.SplitJoin` | main.py:187-192 | splitting a join of space-free tokens gives the tokens back |
| `Strings.JoinSnoc` | main.py:121 | joining one more part appends the separator and that part |
| `Registry.Commands` | main.py:131-168 | no contract of its own; the nine keys of `COMMANDS` with their handler and `args_count`. Used by `Parse`, `Call` and every `Step…` lemma |
| `Registry.MaxArgs` | main.py:4 | no contract of its own; `COMMAND_ARGS_MAX_COUNT = 2`. Its effect is stated by `CallTooManyArguments` and `CallExtraArguments` |
| `Handlers.IndexOf` | main.py:11-17 | returns -1 iff no contact has the name; otherwise the index of the first contact with it |
| `Handlers.HasContact` | main.py:20-22 | true iff some contact has the name |
| `Handlers.Lines` | main.py:115-118 | one `name: phone` line per contact, in store order |
| `Handlers.ContactLine` | main.py:118 | no contract of its own; one listing line. Its behaviour is stated by `ContactLineFormat` |
| `Handlers.ContactLineFormat` | main.py:118 | a listing line is the name, `": "`, then the phone |
| `Handlers.AddContact` | main.py:80-92 | no contract of its own; `add_handler` on the store as a value. Its behaviour is stated by `AddEffect`, `AddExisting`, `AddPreservesWellFormed`, `AddTwice` and `AddThenLookup` |
| `Handlers.AddEffect` | main.py:81-92 | `add` either leaves the store unchanged or appends exactly `Contact(name, sanitise(phone))`; it appends iff the name is new and the phone sanitises, and then answers "Contact successfully added." |
| `Handlers.AddExisting` | main.py:82-83 | `add` of an existing name answers `Contact exists, use "change" command` and changes nothing |
| `Handlers.AddPreservesWellFormed` | main.py:81-92 | `add` keeps names unique and phones sanitised, keeps the old records as a prefix, and grows the store by at most one |
| `Handlers.AddTwice` | main.py:81-92 | repeating the same `add` creates no second record |
| `Handlers.AddThenLookup` | main.py:81-110 | after a successful `add n p`, `phone n` answers exactly the sanitised `p` |
| `Handlers.ChangeContact` | main.py:95-102 | no contract of its own; `change_handler` on the store as a value. Its behaviour is stated by `ChangeAbsent`, `ChangeEffect`, `ChangePresent`, `ChangePreservesWellFormed` and `ChangeThenLookup` |
| `Handlers.ChangeAbsent` | main.py:96-102 | `change` of an absent name answers "Contact not found." and changes nothing |
| `Handlers.ChangeEffect` | main.py:96-102 | `change` keeps length, order and every name; records with other names are untouched; the store changes only on "Contact successfully changed.", which requires a present name and a phone that sanitises |
| `Handlers.ChangePresent` | main.py:97-100 | `change` of a present name with a phone that sanitises answers "Contact successfully changed." and stores the sanitised phone in that name's record |
| `Handlers.ChangePreservesWellFormed` | main.py:96-102 | `change` keeps names unique and phones sanitised |
| `Handlers.ChangeThenLookup` | main.py:96-110 | after a successful `change n p`, `phone n` answers exactly the sanitised `p` |
| `Handlers.LookupPhone` | main.py:105-110 | no contract of its own; `phone_handler`. Its behaviour is stated by `LookupFinds`, `LookupOutcomes`, `AddThenLookup` and `ChangeThenLookup` |
| `Handlers.LookupFinds` | main.py:105-108 | with unique names, `phone n` answers the phone of the contact named `n` |
| `Handlers.LookupOutcomes` | main.py:105-110 | `phone` raises only on an empty argument list; on an absent name it answers "Contact not found." |
| `Handlers.ShowAll` | main.py:113-123 | no contract of its own; `show_all_handler`. Its behaviour is stated by `ShowAllAppend`, `ShowAllSingle`, `Lines` and `ContactLineFormat`, and `ContactBook.ListAll` proves the loop equal to it |
| `Handlers.ShowAllAppend` | main.py:113-123 | adding a contact to a non-empty store adds its line at the end of the listing (insertion order) |
| `Handlers.ShowAllSingle` | main.py:113-123 | a one-contact store is listed as exactly `name: phone` |
| `Tokenizer.Prefix` | main.py:192 | no contract of its own; `' '.join(command_parts[:i+1])`. Its behaviour is stated through `MatchFrom`, `ParseCommandLine` and `SplitJoin` |
| `Tokenizer.MatchFrom` | main.py:191-194 | finds the shortest prefix length (from `n` on) whose space-joined tokens are a command; none iff no such prefix exists |
| `Tokenizer.Parse` | main.py:186-194 | `data` is present iff `command` is a key of `COMMANDS` |
| `Tokenizer.Tokenize` | main.py:187-194 | the prefix-trying loop leaves `(command, data)` exactly as `Parse` defines them |
| `Tokenizer.ParseUnmatched` | main.py:189-194 | when nothing matches, `command` is the whole line and `data` is absent |
| `Tokenizer.ParseCommandLine` | main.py:187-194 | a line of command tokens then argument tokens parses to that command and those arguments when no shorter run of the command's tokens is a command (shortest match wins) |
| `Tokenizer.ParseFirstToken` | main.py:191-194 | a first token that is a command wins; all later tokens, empty ones included, are arguments |
| `Tokenizer.ParseNoCommand` | main.py:189-194 | a line none of whose token prefixes is a command parses to no data |
| `Tokenizer.NoMatch` | main.py:191-194 | with no command among the token prefixes, the search finds none |
| `Dispatch.RunHandler` | main.py:131-168 | only `add` and `change` change the store; a missing-argument error leaves it unchanged and comes only from `add`, `change`, or `phone` with no arguments |
| `Dispatch.MissingArgumentText` | main.py:59-70 | no contract of its own; the `IndexError` branch of `input_error`. Its texts are stated by `CallWithoutArguments` and `CallPhoneNotSpecified` |
| `Dispatch.Guarded` | main.py:42-70 | no contract of its own; a handler wrapped by `input_error`. Its behaviour is stated by `CallExtraArguments`, `CallPlain`, `CallWithoutArguments` and `CallPhoneNotSpecified` |
| `Dispatch.Call` | main.py:171-175 | no contract beyond its requires; the decorated `call_handler`, together with the warning and error translation of main.py:42-58. Its behaviour is stated by every `Call…` lemma, and `ContactBook.CallHandler` proves the method equal to it |
| `Dispatch.CallTooManyArguments` | main.py:171-175 | more than two arguments give exactly "Too many arguments.": no warning, no handler, store unchanged |
| `Dispatch.CallUnknownCommand` | main.py:53-55 | an unmatched command gives "Unknown command." and leaves the store unchanged |
| `Dispatch.CallExtraArguments` | main.py:44-52 | more arguments than the command uses (at most two) give `Extra arguments discarded.\n` followed by the handler's own text and effect |
| `Dispatch.CallPlain` | main.py:42-52 | with no surplus arguments the output is the decorated handler's alone |
| `Dispatch.CallWithoutArguments` | main.py:59-70 | `add`/`change` with no arguments give "Specify a name and a phone please."; `phone` gives "Specify a name please."; store unchanged |
| `Dispatch.CallPhoneNotSpecified` | main.py:59-67 | a missing phone, or one with no digit and no `+`, makes `add` of a new name or `change` of a known one answer "Phone number is not specified." without changing the store |
| `Dispatch.CallPreservesWellFormed` | main.py:171-175 | every call keeps names unique and phones sanitised |
| `Dispatch.Step` | main.py:186-198 | no contract of its own; one non-blank line tokenised and dispatched. Its behaviour is stated by the `Step…` lemmas, and `ContactBook.ProcessLine` proves the method equal to it |
| `Dispatch.StepAdd` | main.py:186-196 | the line `add name raw` runs the decorated `add_handler` on `[name, raw]` |
| `Dispatch.StepPhone` | main.py:186-196 | the line `phone name` runs the decorated `phone_handler` on `[name]` |
| `Dispatch.StepAddThenPhone` | main.py:186-198 | the lines `add name raw` then `phone name` append the contact, and then print exactly the sanitised phone |
| `Dispatch.StepExit` | main.py:196-200 | `exit` prints exactly `Good bye!`; `exit arg` prints the warning then `Good bye!`, which is a different text |
| `Dispatch.StepShowAll` | main.py:148-151 | `show all` is matched as a two-token command and prints the listing |
| `Dispatch.StepUnknown` | main.py:189-196 | a line none of whose token prefixes is a command prints "Unknown command." and leaves the store unchanged |
| `Dispatch.Run` | main.py:178-201 | no contract of its own; the `main` loop over a sequence of input lines. Its behaviour is stated by `RunSkipsBlankLines`, `RunPreservesWellFormed`, `RunWithoutGoodBye`, `RunStopsAtGoodBye` and `RunIgnoresLinesAfterGoodBye`, and `ContactBook.RunSession` proves the loop equal to it |
| `Dispatch.RunSkipsBlankLines` | main.py:186 | blank lines make no difference: a session over the lines gives the same store and texts as one over only the non-blank lines, in order |
| `Dispatch.RunPreservesWellFormed` | main.py:178-201 | a whole session keeps names unique and phones sanitised |
| `Dispatch.RunWithoutGoodBye` | main.py:186-201 | a session that never prints exactly `Good bye!` prints one text per non-blank line |
| `Dispatch.RunStopsAtGoodBye` | main.py:196-201 | at most one text per line is printed, and `Good bye!` only as the last |
| `Dispatch.RunIgnoresLinesAfterGoodBye` | main.py:200-201 | once `Good bye!` is printed, later lines make no difference |
| `Book.ContactBook.constructor` | main.py:7 | the store starts empty and valid |
| `Book.ContactBook.Add` | main.py:80-92 | the in-place append leaves `contacts` and the outcome exactly as `AddContact` defines them, and keeps `Valid()` |
| `Book.ContactBook.Change` | main.py:95-102 | the indexed phone write leaves `contacts` and the outcome exactly as `ChangeContact` defines them, and keeps `Valid()` |
| `Book.ContactBook.Lookup` | main.py:105-110 | answers as `LookupPhone`; answers "Contact not found." iff a name is given and no contact has it; any other text is the phone of a contact with that name |
| `Book.ContactBook.ListAll` | main.py:113-123 | the line-building loop produces exactly `ShowAll(contacts)` |
| `Book.ContactBook.CallHandler` | main.py:171-175 | warning, `ValueError`, `KeyError` and `IndexError` translation as `input_error` does it: the new store and the text are exactly `Call`'s |
| `Book.ContactBook.ProcessLine` | main.py:186-198 | tokenising then calling gives exactly `Step`'s store and text |
| `Book.ContactBook.RunSession` | main.py:178-201 | the loop over lines prints and updates exactly as `Run` defines, and keeps `Valid()` |

## Left out

- Terminal I/O: the `input()` prompt, `print`, and the `KeyboardInterrupt` exit path (main.py:179-184, 198). A session is a sequence of lines, and its printed texts are a sequence of strings.
- `str.strip()` (main.py:181): lines are taken as already stripped. An empty line is skipped, as the `if command_with_args` test does.
- End of input: the model stops when the lines run out. Python's `input()` would raise `EOFError` there.
- Regular-expression internals (main.py:28-30): the filter is a character predicate. Python's `\d` also matches non-ASCII Unicode digits; the model accepts only ASCII `'0'..'9'`.
- Decorator mechanics and `handler.__name__` (main.py:39-71): the decorator's branches are explicit functions (`MissingArgumentText`, `Guarded`, `Call`).
- The `None` that `input_error` returns when a handler other than `add`/`change` raises `IndexError` with arguments present, and the `KeyError`/`ValueError` branches for inner handlers: no handler reaches them (`RunHandler`'s contract). `MissingArgumentText` requires one of the cases that has a message.
- `Dispatch.Call`: requires that `data` is present exactly when `command` is a key. `main` never produces anything else, so the `KeyError` the warning check at main.py:49 would raise for an unknown command with arguments is not modelled.
- Records are Python dicts mutated in place (main.py:99). No reference to a record escapes, so a record is a value and `change` replaces it at its index.
