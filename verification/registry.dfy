/**
 * Command factories (command.go) and the default verb registry
 * `defaultCommands` (protocol.go). `instanceFactory(c)` hands out the one
 * shared instance `c`; `factory(f)` calls the constructor `f` on every lookup,
 * so DATA, whose instance carries a body buffer, starts afresh each time.
 */
module Registry {
  import opened Wrappers
  import opened Strings
  import opened Util
  import opened Protocol
  import opened Commands

  datatype Factory = Shared(instance: Command) | Fresh(ctor: () -> Command)

  /** `factoryFunc.New`. */
  function New(f: Factory): Command
  {
    match f
    case Shared(c) => c
    case Fresh(ctor) => ctor()
  }

  /** `instanceFactory`: every `New` returns the same instance. */
  function InstanceFactory(c: Command): (f: Factory)
    ensures New(f) == c
  {
    Shared(c)
  }

  /** `factory`: every `New` returns what the constructor builds. */
  function FactoryOf(ctor: () -> Command): (f: Factory)
    ensures New(f) == ctor()
  {
    Fresh(ctor)
  }

  /** A registry maps a verb to a factory, or to `None` (Go's nil) for a verb deliberately not implemented. */
  type CommandTable = map<string, Option<Factory>>

  /** `defaultCommands`. QUIT is absent: only the loop handles it. */
  function DefaultCommands(): CommandTable
  {
    map[
      CommandData := Some(FactoryOf(NewDataCommand)),
      CommandEhlo := None,
      CommandExpn := None,
      CommandHelo := Some(InstanceFactory(Helo)),
      CommandHelp := None,
      CommandMail := Some(InstanceFactory(Mail(CommandMail))),
      CommandNoop := Some(InstanceFactory(Noop)),
      CommandRcpt := Some(InstanceFactory(Rcpt)),
      CommandRset := Some(InstanceFactory(Rset)),
      CommandSend := Some(InstanceFactory(Mail(CommandSend))),
      CommandSaml := Some(InstanceFactory(Mail(CommandSaml))),
      CommandSoml := Some(InstanceFactory(Mail(CommandSoml))),
      CommandVrfy := None
    ]
  }

  /** `readCommandName`: the first four bytes of the line (or all of it), upper-cased. */
  function ReadCommandName(line: string): (name: string)
    ensures |name| == if |line| < 4 then |line| else 4
    ensures EqualFold(name, line[..|name|])
    ensures Upper(name) == name
  {
    var name := Upper(SafeSubstring(line, 4));
    UpperIdempotent(SafeSubstring(line, 4));
    name
  }

  /**
   * A registry is well formed when every implemented verb builds a command
   * registered under that very verb, and every key has the shape
   * `readCommandName` produces: it reads back as itself.
   */
  predicate WellFormed(reg: CommandTable)
  {
    && (forall k :: k in reg ==> ReadCommandName(k) == k)
    && (forall k :: k in reg && reg[k].Some? ==> Verb(New(reg[k].value)) == k)
  }

  /** A name of four upper-case letters reads back as itself. */
  lemma UpperVerbReadsBack(k: string)
    requires |k| == 4 && forall i :: 0 <= i < 4 ==> 'A' <= k[i] <= 'Z'
    ensures ReadCommandName(k) == k
  {
    assert SafeSubstring(k, 4) == k;
  }

  /** A line that starts with an upper-case verb is read as that verb. */
  lemma ReadsVerb(line: string, verb: string)
    requires |verb| == 4 && forall i :: 0 <= i < 4 ==> 'A' <= verb[i] <= 'Z'
    requires HasPrefix(line, verb)
    ensures ReadCommandName(line) == verb
  {
    assert SafeSubstring(line, 4) == verb;
    UpperVerbReadsBack(verb);
    assert SafeSubstring(verb, 4) == verb;
  }

  /** The verbs `defaultCommands` registers. */
  const DefaultVerbs: seq<string> :=
    [CommandData, CommandEhlo, CommandExpn, CommandHelo, CommandHelp, CommandMail,
     CommandNoop, CommandRcpt, CommandRset, CommandSend, CommandSaml, CommandSoml, CommandVrfy]

  lemma DefaultKeys()
    ensures forall k :: k in DefaultCommands() <==> k in DefaultVerbs
  {
  }

  lemma DefaultKeysReadBack()
    ensures forall k :: k in DefaultCommands() ==> ReadCommandName(k) == k
  {
    DefaultKeys();
    forall i | 0 <= i < |DefaultVerbs|
      ensures ReadCommandName(DefaultVerbs[i]) == DefaultVerbs[i]
    {
      UpperVerbReadsBack(DefaultVerbs[i]);
    }
  }

  lemma DefaultVerbsMatch()
    ensures forall k :: k in DefaultCommands() && DefaultCommands()[k].Some? ==> Verb(New(DefaultCommands()[k].value)) == k
  {
  }

  /** The default registry is well formed, and QUIT is not in it. */
  lemma DefaultCommandsWellFormed()
    ensures WellFormed(DefaultCommands())
    ensures CommandQuit !in DefaultCommands()
  {
    DefaultKeysReadBack();
    DefaultVerbsMatch();
    DefaultKeys();
  }

  /** EHLO, EXPN, HELP and VRFY are registered without a factory; every other verb has one. */
  lemma NotImplementedVerbs(name: string)
    requires name in DefaultCommands()
    ensures DefaultCommands()[name].None? <==> name in {CommandEhlo, CommandExpn, CommandHelp, CommandVrfy}
  {
  }

  /** The four mail verbs each build a MAIL command that knows its own verb; DATA alone is built fresh. */
  lemma RegistryFactories(name: string)
    requires name in DefaultCommands() && DefaultCommands()[name].Some?
    ensures name in CommandsMail ==> New(DefaultCommands()[name].value) == Mail(name)
    ensures DefaultCommands()[name].value.Fresh? <==> name == CommandData
    ensures name == CommandData ==> New(DefaultCommands()[name].value) == Data(false, "")
  {
  }
}
