/**
 * The older session loop: `run` of main.go and `handle` of handle.go, with
 * main.go's command table (`Command` values with `Next`, `Stateless` and a
 * `Run` function) and its `init` registry. Here DATA reads the body lines
 * itself (command_data.go), so a step consumes a line and possibly more.
 *
 * `run` takes the verb without case folding, cuts arguments with main.go's
 * exact `getSuffix` and checks domains by name alone (main.go's
 * `Exchange.Domain`). `handle` builds only next to exchange.go and util.go:
 * it upper-cases the verb, cuts arguments with util.go's case-folding
 * `getSuffix` and uses exchange.go's `Exchange.Domain`, which also accepts
 * IP literals.
 */
module LegacyLoop {
  import opened Wrappers
  import opened Strings
  import opened Util
  import opened Protocol
  import opened Replies
  import opened Exchanges
  import opened DataBody
  import Commands

  datatype Variant = MainRun | HandleLoop

  /** main.go's `Command` struct; its `Run` function is `RunCommand` below, chosen by `name`. */
  datatype LegacyCommand = LegacyCommand(name: string, next: seq<string>, stateless: bool)

  function LegacyCommands(): map<string, LegacyCommand>
  {
    map[
      CommandHelo := LegacyCommand(CommandHelo, [CommandMail], false),
      CommandMail := LegacyCommand(CommandMail, [CommandRcpt, CommandRset], false),
      CommandRcpt := LegacyCommand(CommandRcpt, [CommandData, CommandRcpt, CommandRset], false),
      CommandRset := LegacyCommand(CommandRset, [CommandMail], false),
      CommandNoop := LegacyCommand(CommandNoop, [], true),
      CommandData := LegacyCommand(CommandData, [CommandMail], false)
    ]
  }

  /** The verbs `init` marks as not implemented. */
  const Unimplemented: seq<string> := [CommandHelp, CommandEhlo, CommandExpn, CommandVrfy, CommandSoml, CommandSaml]

  /**
   * What a `Run` did: its boolean result, the replies it wrote, the exchange
   * after it, and the input left after it (`None`: DATA found no terminator
   * and the source never returns).
   */
  datatype RunOutcome = RunOutcome(ok: bool, replies: seq<Reply>, ex: Exchange, rest: Option<seq<string>>)

  function Accept(v: Variant, ex: Exchange, domain: string, env: Env): Result<Exchange>
  {
    if v == MainRun then SetDomainNameOnly(ex, domain) else SetDomain(ex, domain, env)
  }

  /**
   * Whether `line` starts with the argument prefix of a command: exactly for
   * `run` (main.go's `getSuffix`), ignoring case for `handle` (util.go's
   * `getSuffix`, in its corrected form `Util.GetSuffix`).
   */
  predicate HeadMatches(v: Variant, line: string, prefix: string)
  {
    if v == MainRun then HasPrefix(line, prefix)
    else |prefix| <= |line| && EqualFold(line[..|prefix|], prefix)
  }

  /** The argument after `prefix`, cut by the variant's `getSuffix`. */
  function Argument(v: Variant, line: string, prefix: string): (r: Option<string>)
    ensures r.Some? <==> HeadMatches(v, line, prefix)
    ensures r.Some? ==> line == line[..|prefix|] + r.value
  {
    if v == MainRun then
      var (rest, got) := GetSuffixExact(line, prefix);
      if got then Some(rest) else None
    else GetSuffix(line, prefix)
  }

  /** main.go's `helo.Run`: the argument follows "HELO "; the reply echoes the client's domain. */
  function RunHelo(v: Variant, env: Env, line: string, ex: Exchange): (r: RunOutcome)
    ensures |r.replies| == 1
    ensures !HeadMatches(v, line, "HELO ") ==>
      !r.ok && r.ex == ex && r.replies[0] == Reply(ReplySyntaxError, "Syntax: HELO <domain>")
    ensures HeadMatches(v, line, "HELO ") ==>
      var domain := line[5..];
      && (r.ok <==> Accept(v, ex, domain, env).Ok?)
      && (r.ok ==> r.ex == ex.(domain := domain) && r.replies[0] == Reply(ReplyOK, "HELO " + domain))
      && (!r.ok ==> r.ex == ex && r.replies[0] == Reply(ReplySyntaxError, InvalidDomain))
  {
    match Argument(v, line, "HELO ")
    case None => RunOutcome(false, [Reply(ReplySyntaxError, "Syntax: HELO <domain>")], ex, None)
    case Some(domain) =>
      match Accept(v, ex, domain, env)
      case Err(e) => RunOutcome(false, [Reply(ReplySyntaxError, e)], ex, None)
      case Ok(ex') => RunOutcome(true, [Reply(ReplyOK, "HELO " + domain)], ex', None)
  }

  /** main.go's `mail.Run`: the address follows "MAIL FROM: "; the transaction is reset before parsing. */
  function RunMail(v: Variant, env: Env, line: string, ex: Exchange): (r: RunOutcome)
    ensures |r.replies| == 1
    ensures !HeadMatches(v, line, "MAIL FROM: ") ==>
      !r.ok && r.ex == ex && r.replies[0] == Reply(ReplySyntaxError, "Syntax: MAIL FROM: <address>")
    ensures HeadMatches(v, line, "MAIL FROM: ") ==>
      var raw := line[11..];
      && (r.ok <==> env.parse(raw).Ok?)
      && r.ex.from == (if r.ok then Some(env.parse(raw).value) else None)
      && r.ex.to == [] && r.ex.domain == ex.domain && r.ex.body == ex.body && r.ex.sent == ex.sent
      && (r.ok ==> r.replies[0] == Reply(ReplyOK, "OK"))
      && (!r.ok ==> r.replies[0] == Reply(ReplyInvalidMailboxSyntax, env.parse(raw).error))
  {
    match Argument(v, line, "MAIL FROM: ")
    case None => RunOutcome(false, [Reply(ReplySyntaxError, "Syntax: MAIL FROM: <address>")], ex, None)
    case Some(address) =>
      var cleared := Reset(ex);
      match SetFrom(cleared, address, env)
      case Err(e) => RunOutcome(false, [Reply(ReplyInvalidMailboxSyntax, e)], cleared, None)
      case Ok(ex') => RunOutcome(true, [Reply(ReplyOK, "OK")], ex', None)
  }

  /** main.go's `rcpt.Run`: the address follows "RCPT TO: " and is appended. */
  function RunRcpt(v: Variant, env: Env, line: string, ex: Exchange): (r: RunOutcome)
    ensures |r.replies| == 1
    ensures !r.ok ==> r.ex == ex
    ensures r.ok <==> HeadMatches(v, line, "RCPT TO: ") && env.parse(line[9..]).Ok?
    ensures r.ok ==> r.ex == ex.(to := ex.to + [env.parse(line[9..]).value])
    ensures r.ok ==> r.replies[0] == Reply(ReplyOK, "OK")
    ensures !HeadMatches(v, line, "RCPT TO: ") ==> r.replies[0] == Reply(ReplySyntaxError, "Syntax: RCPT TO: <address>")
    ensures HeadMatches(v, line, "RCPT TO: ") && env.parse(line[9..]).Err? ==>
      r.replies[0] == Reply(ReplyInvalidMailboxSyntax, env.parse(line[9..]).error)
  {
    match Argument(v, line, "RCPT TO: ")
    case None => RunOutcome(false, [Reply(ReplySyntaxError, "Syntax: RCPT TO: <address>")], ex, None)
    case Some(address) =>
      match AddTo(ex, address, env)
      case Err(e) => RunOutcome(false, [Reply(ReplyInvalidMailboxSyntax, e)], ex, None)
      case Ok(ex') =>
      assert ex'.to == ex'.to[..|ex.to|] + [ex'.to[|ex.to|]];
      RunOutcome(true, [Reply(ReplyOK, "OK")], ex', None)
  }

  /** command_data.go's `data.Run`: 354 first, then the body up to the terminator, delivery, and OK. */
  function RunData(ex: Exchange, rest: seq<string>): (r: RunOutcome)
    ensures |r.replies| >= 1 && r.replies[0] == Reply(ReplyDataStart, Commands.DataStartText)
    ensures r.ok <==> CollectBody(rest).Some?
    ensures !r.ok ==> r.rest.None? && r.ex == ex
    ensures r.ok ==> var (body, after) := CollectBody(rest).value;
      && r.rest == Some(after)
      && r.replies == [Reply(ReplyDataStart, Commands.DataStartText), Reply(ReplyOK, "OK")]
      && r.ex.body == Some(body)
      && r.ex.sent == ex.sent + [Message(ex.from, ex.to, Some(body))]
      && r.ex.from == None && r.ex.to == [] && r.ex.domain == ex.domain
  {
    var start := Reply(ReplyDataStart, Commands.DataStartText);
    match CollectBody(rest)
    case None => RunOutcome(false, [start], ex, None)
    case Some((body, after)) =>
      RunOutcome(true, [start, Reply(ReplyOK, "OK")], Exchanges.Done(SetBody(ex, body)), Some(after))
  }

  /**
   * The `Run` function of the table entry `name`. Only DATA reads input
   * beyond its own line (`rest` is what it leaves); the commands answer 250,
   * 354, 501 or 553, and only HELO answers "250 HELO ...".
   */
  function RunCommand(v: Variant, env: Env, name: string, line: string, ex: Exchange, rest: seq<string>): (r: RunOutcome)
    requires name in LegacyCommands()
    ensures r.rest.Some? ==> |r.rest.value| <= |rest|
    ensures r.ok ==> |r.replies| >= 1 && r.replies[|r.replies| - 1].code == ReplyOK
    ensures name != CommandData ==> r.rest == Some(rest) && |r.replies| == 1
    ensures forall i :: 0 <= i < |r.replies| ==>
      r.replies[i].code in {ReplyOK, ReplyDataStart, ReplySyntaxError, ReplyInvalidMailboxSyntax}
    ensures forall i :: 0 <= i < |r.replies| ==>
      (r.replies[i].code == ReplyOK && HasPrefix(r.replies[i].msg, "HELO ") ==> name == CommandHelo)
  {
    if name == CommandHelo then RunHelo(v, env, line, ex).(rest := Some(rest))
    else if name == CommandMail then
      NotHeloGreeting("OK");
      RunMail(v, env, line, ex).(rest := Some(rest))
    else if name == CommandRcpt then
      NotHeloGreeting("OK");
      RunRcpt(v, env, line, ex).(rest := Some(rest))
    else if name == CommandRset then
      NotHeloGreeting("reset");
      RunOutcome(true, [Reply(ReplyOK, "reset")], Reset(ex), Some(rest))
    else if name == CommandNoop then
      NotHeloGreeting("noop");
      RunOutcome(true, [Reply(ReplyOK, "noop")], ex, Some(rest))
    else
      NotHeloGreeting("OK");
      RunData(ex, rest)
  }

  lemma NotHeloGreeting(msg: string)
    requires msg in {"OK", "reset", "noop"}
    ensures !HasPrefix(msg, "HELO ")
  {
    if |msg| >= 5 {
      assert msg[0] != 'H';
    }
  }

  /** The verb as each variant reads it: `run` takes the first four bytes as they are, `handle` upper-cases them. */
  function VerbOf(v: Variant, line: string): string
  {
    if v == MainRun then SafeSubstring(line, 4) else Upper(SafeSubstring(line, 4))
  }

  /**
   * One iteration of the loop: the replies, the allowed successors and the
   * exchange after it, the input left (`None`: never returns), and whether
   * QUIT ended the session.
   */
  datatype LegacyStep = LegacyStep(replies: seq<Reply>, next: seq<string>, ex: Exchange, rest: Option<seq<string>>, quit: bool)

  function Step(v: Variant, env: Env, next: seq<string>, ex: Exchange, line: string, rest: seq<string>): (r: LegacyStep)
    ensures r.rest.Some? ==> |r.rest.value| <= |rest|
  {
    var name := VerbOf(v, line);
    if name == CommandQuit then
      LegacyStep([Reply(ReplyServiceClosing, "Service closing transmission channel")], next, ex, Some(rest), true)
    else if Contains(Unimplemented, name) then
      LegacyStep([Reply(ReplyNotImplemented, "not implemented")], next, ex, Some(rest), false)
    else if name !in LegacyCommands() then
      LegacyStep([Reply(ReplyUnknown, "unrecognized command")], next, ex, Some(rest), false)
    else
      var cmd := LegacyCommands()[name];
      if cmd.stateless then
        var r := RunCommand(v, env, name, line, ex, rest);
        LegacyStep(r.replies, next, r.ex, r.rest, false)
      else if !Contains(next, name) then
        LegacyStep([Reply(ReplyBadSequence, "bad command sequence")], next, ex, Some(rest), false)
      else
        var r := RunCommand(v, env, name, line, ex, rest);
        LegacyStep(r.replies, if r.ok then cmd.next else next, r.ex, r.rest, false)
  }

  datatype Ending = Quit | EndOfInput | Hung

  datatype LegacyRun = LegacyRun(replies: seq<Reply>, next: seq<string>, ex: Exchange, ending: Ending)

  /** The loop over the remaining input. */
  function Loop(v: Variant, env: Env, next: seq<string>, ex: Exchange, lines: seq<string>): LegacyRun
    decreases |lines|
  {
    if |lines| == 0 then LegacyRun([], next, ex, EndOfInput)
    else
      var r := Step(v, env, next, ex, lines[0], lines[1..]);
      if r.quit then LegacyRun(r.replies, r.next, r.ex, Quit)
      else if r.rest.None? then LegacyRun(r.replies, r.next, r.ex, Hung)
      else
        var more := Loop(v, env, r.next, r.ex, r.rest.value);
        LegacyRun(r.replies + more.replies, more.next, more.ex, more.ending)
  }

  /** A whole connection: the 220 greeting first, then the loop with only HELO allowed. */
  function Session(v: Variant, env: Env, lines: seq<string>): (r: LegacyRun)
    ensures |r.replies| >= 1 && r.replies[0] == Reply(ReplyServiceReady, "Simple Mail Transfer Service Ready")
  {
    var r := Loop(v, env, [CommandHelo], NewExchange, lines);
    LegacyRun([Reply(ReplyServiceReady, "Simple Mail Transfer Service Ready")] + r.replies, r.next, r.ex, r.ending)
  }
}
