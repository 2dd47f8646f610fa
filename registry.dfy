/** The command table `COMMANDS` and the argument cap of main.py. */
module Registry {

  /** COMMAND_ARGS_MAX_COUNT: no command accepts more than this many arguments. */
  const MaxArgs: nat := 2

  /** The handler functions a command can name. */
  datatype HandlerKind = HelloHandler | AddHandler | ChangeHandler | PhoneHandler | ShowAllHandler | ExitHandler

  /** One entry of the table: the handler and the number of arguments it uses. */
  datatype Descriptor = Descriptor(handler: HandlerKind, argsCount: nat)

  /** `COMMANDS`, keyed by the literal command text; two keys hold a space. */
  const Commands: map<string, Descriptor> := map[
    "hello" := Descriptor(HelloHandler, 0),
    "add" := Descriptor(AddHandler, 2),
    "change" := Descriptor(ChangeHandler, 2),
    "phone" := Descriptor(PhoneHandler, 1),
    "show all" := Descriptor(ShowAllHandler, 0),
    "good bye" := Descriptor(ExitHandler, 0),
    "goodbye" := Descriptor(ExitHandler, 0),
    "close" := Descriptor(ExitHandler, 0),
    "exit" := Descriptor(ExitHandler, 0)
  ]
}
