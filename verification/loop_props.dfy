/**
 * Sequencing properties of the protocol loop of protocol_loop.go: what the
 * loop's own replies (221, 500, 502, 503) mean and that they change nothing,
 * that NOOP changes nothing, that HELO is accepted at most once per
 * connection, and that DATA read line by line gives the body the one-shot
 * reader of command_data.go gives.
 */
module LoopProperties {
  import opened Sequences
  import opened Wrappers
  import opened Util
  import opened Protocol
  import opened Replies
  import opened Exchanges
  import opened DataBody
  import opened Commands
  import opened Registry
  import opened ProtocolLoop

  /**
   * The loop's own replies, both ways: the session stops exactly at QUIT
   * while waiting; 500 means an unregistered verb, 502 a verb registered
   * without factory, 503 a verb that may not run now; none of them happens
   * inside a command, and none of them changes the session.
   */
  lemma LoopReplies(env: Env, reg: CommandTable, s: Session, line: string)
    ensures var r := Step(env, reg, s, line);
      var name := ReadCommandName(line);
      && (r.stop <==> s.mode == Waiting && name == CommandQuit)
      && (ReplyUnknown in Codes(r.replies) <==> s.mode == Waiting && name != CommandQuit && name !in reg)
      && (ReplyNotImplemented in Codes(r.replies) <==>
            s.mode == Waiting && name != CommandQuit && name in reg && reg[name].None?)
      && (ReplyBadSequence in Codes(r.replies) <==>
            s.mode == Waiting && name != CommandQuit && name in reg && reg[name].Some?
            && !CanRun(s, name, New(reg[name].value)))
      && ((r.stop || ReplyUnknown in Codes(r.replies) || ReplyNotImplemented in Codes(r.replies) || ReplyBadSequence in Codes(r.replies))
          ==> r.session == s)
  {
    var r := Step(env, reg, s, line);
    var name := ReadCommandName(line);
    var c: Command;
    if s.mode.InCommand? {
      c := s.mode.cmd;
    } else if name != CommandQuit && name in reg && reg[name].Some? && CanRun(s, name, New(reg[name].value)) {
      c := New(reg[name].value);
    } else {
      assert |r.replies| == 1;
      assert Codes(r.replies) == {r.replies[0].code};
      return;
    }
    var p := Process(c, line, s.ex, env);
    assert r == ProcessCommand(s, c, line, env);
    if p.reply.Some? {
      assert r.replies == [p.reply.value];
      assert Codes(r.replies) == {p.reply.value.code};
    } else {
      assert Codes(r.replies) == {};
    }
  }

  /** NOOP, in any waiting state, answers OK and changes nothing at all. */
  lemma NoopChangesNothing(env: Env, s: Session, line: string)
    requires s.mode == Waiting && ReadCommandName(line) == CommandNoop
    ensures Step(env, DefaultCommands(), s, line) == StepResult(s, [OkReply()], false)
  {
  }

  /** Before HELO has succeeded, every implemented verb but HELO and NOOP is refused with 503. */
  lemma FirstCommandMustBeHelo(env: Env, ex: Exchange, line: string)
    requires var name := ReadCommandName(line);
      name in DefaultCommands() && DefaultCommands()[name].Some? && name != CommandHelo && name != CommandNoop
    ensures var s := Session(Waiting, [CommandHelo], ex);
      Step(env, DefaultCommands(), s, line) == StepResult(s, [Reply(ReplyBadSequence, BadSequenceText)], false)
  {
    var name := ReadCommandName(line);
    DefaultCommandsWellFormed();
    var c := New(DefaultCommands()[name].value);
    assert Verb(c) == name;
    assert !Stateless(c);
  }

  /** The step processed a HELO line and HELO finished. */
  predicate HeloAccepted(env: Env, reg: CommandTable, s: Session, line: string)
  {
    && s.mode == Waiting
    && ReadCommandName(line) == CommandHelo
    && CommandHelo in reg && reg[CommandHelo].Some?
    && CanRun(s, CommandHelo, New(reg[CommandHelo].value))
    && Process(New(reg[CommandHelo].value), line, s.ex, env).outcome == Done
  }

  /** How many lines of a run were accepted HELO commands. */
  function HeloSuccesses(env: Env, reg: CommandTable, s: Session, lines: seq<string>): nat
    decreases |lines|
  {
    if |lines| == 0 then 0
    else
      var r := Step(env, reg, s, lines[0]);
      var here := if HeloAccepted(env, reg, s, lines[0]) then 1 else 0;
      if r.stop then here else here + HeloSuccesses(env, reg, r.session, lines[1..])
  }

  /** No step puts HELO into the allowed successors; an accepted HELO takes it out. */
  lemma StepAndHelo(env: Env, reg: CommandTable, s: Session, line: string)
    requires WellFormed(reg)
    ensures CommandHelo in Step(env, reg, s, line).session.next ==> CommandHelo in s.next
    ensures HeloAccepted(env, reg, s, line) ==>
      CommandHelo in s.next && CommandHelo !in Step(env, reg, s, line).session.next
  {
    var name := ReadCommandName(line);
    if s.mode == Waiting && name != CommandQuit && name in reg && reg[name].Some? {
      var c := New(reg[name].value);
      if HeloAccepted(env, reg, s, line) {
        assert Verb(c) == CommandHelo;
      }
    }
  }

  /** Along any run, HELO is accepted at most once, and not at all once it is no longer allowed. */
  lemma {:induction false} HeloAtMostOnce(env: Env, reg: CommandTable, s: Session, lines: seq<string>)
    requires WellFormed(reg)
    ensures HeloSuccesses(env, reg, s, lines) <= if CommandHelo in s.next then 1 else 0
    decreases |lines|
  {
    if |lines| > 0 {
      var r := Step(env, reg, s, lines[0]);
      StepAndHelo(env, reg, s, lines[0]);
      if !r.stop {
        HeloAtMostOnce(env, reg, r.session, lines[1..]);
      }
    }
  }

  /** Over a whole connection with the default registry, HELO succeeds at most once. */
  lemma HeloOncePerConnection(env: Env, lines: seq<string>)
    ensures HeloSuccesses(env, DefaultCommands(), InitialSession(), lines) <= 1
  {
    DefaultCommandsWellFormed();
    HeloAtMostOnce(env, DefaultCommands(), InitialSession(), lines);
  }

  /** RSET, when allowed, answers OK, forgets sender and recipients, and allows MAIL next. */
  lemma RsetStartsOver(env: Env, s: Session, line: string)
    requires s.mode == Waiting && ReadCommandName(line) == CommandRset && CommandRset in s.next
    ensures Step(env, DefaultCommands(), s, line) ==
      StepResult(Session(Waiting, [CommandMail], Reset(s.ex)), [OkReply()], false)
  {
  }

  /** Right after HELO (successors `[MAIL]`) RSET is refused with 503. */
  lemma RsetRightAfterHeloRefused(env: Env, ex: Exchange, line: string)
    requires ReadCommandName(line) == CommandRset
    ensures var s := Session(Waiting, [CommandMail], ex);
      Step(env, DefaultCommands(), s, line) == StepResult(s, [Reply(ReplyBadSequence, BadSequenceText)], false)
  {
  }

  /** QUIT while waiting ends the connection with 221, and nothing after it is read. */
  lemma QuitEndsInput(env: Env, reg: CommandTable, s: Session, line: string, rest: seq<string>)
    requires s.mode == Waiting && ReadCommandName(line) == CommandQuit
    ensures Run(env, reg, s, [line] + rest) == RunResult(s, [Reply(ReplyServiceClosing, ClosingText)], true)
  {
    assert ([line] + rest)[0] == line;
  }

  /** Inside DATA, a QUIT line is body content: it is buffered and the session goes on. */
  lemma QuitInsideDataIsBody(env: Env, reg: CommandTable, s: Session, buf: string)
    requires s.mode == InCommand(Data(true, buf))
    ensures Step(env, reg, s, "QUIT") == StepResult(s.(mode := InCommand(Data(true, buf + "QUIT\n"))), [], false)
  {
  }

  /**
   * DATA read line by line inside the loop ends where the one-shot reader of
   * command_data.go ends, with the same body: one OK reply, one recorded
   * delivery, MAIL allowed next, and the loop resumes after the terminator.
   */
  lemma {:induction false} DataStreamMatchesBatch(env: Env, reg: CommandTable, s: Session, buf: string, lines: seq<string>)
    requires s.mode == InCommand(Data(true, buf))
    requires CollectBody(lines).Some?
    ensures var body := CollectBody(lines).value.0;
      var done := Session(Waiting, [CommandMail], Exchanges.Done(SetBody(s.ex, buf + body)));
      var after := Run(env, reg, done, CollectBody(lines).value.1);
      Run(env, reg, s, lines) == RunResult(after.session, [OkReply()] + after.replies, after.quit)
    decreases |lines|
  {
    var line := lines[0];
    if !IsTerminator(line) {
      var s' := s.(mode := InCommand(Data(true, buf + line + "\n")));
      BufferedLine(env, reg, s, buf, lines);
      DataStreamMatchesBatch(env, reg, s', buf + line + "\n", lines[1..]);
      var body := CollectBody(lines[1..]).value.0;
      Regroup(buf, line, "\n", body);
    } else {
      TerminatorLine(env, reg, s, buf, lines);
    }
  }

  /** The terminator hands the buffer over: OK, one delivery, MAIL next, and the loop resumes waiting. */
  lemma TerminatorLine(env: Env, reg: CommandTable, s: Session, buf: string, lines: seq<string>)
    requires s.mode == InCommand(Data(true, buf))
    requires |lines| > 0 && IsTerminator(lines[0])
    ensures CollectBody(lines) == Some(("", lines[1..]))
    ensures var done := Session(Waiting, [CommandMail], Exchanges.Done(SetBody(s.ex, buf + "")));
      var after := Run(env, reg, done, lines[1..]);
      Run(env, reg, s, lines) == RunResult(after.session, [OkReply()] + after.replies, after.quit)
  {
    assert buf + "" == buf;
  }

  /** A line that does not end the body is buffered silently, and the loop reads on in DATA. */
  lemma BufferedLine(env: Env, reg: CommandTable, s: Session, buf: string, lines: seq<string>)
    requires s.mode == InCommand(Data(true, buf))
    requires |lines| > 0 && !IsTerminator(lines[0])
    ensures var s' := s.(mode := InCommand(Data(true, buf + lines[0] + "\n")));
      Run(env, reg, s, lines) == Run(env, reg, s', lines[1..])
    ensures CollectBody(lines).Some? ==>
      && CollectBody(lines[1..]).Some?
      && CollectBody(lines).value.0 == lines[0] + "\n" + CollectBody(lines[1..]).value.0
      && CollectBody(lines).value.1 == CollectBody(lines[1..]).value.1
  {
    var s' := s.(mode := InCommand(Data(true, buf + lines[0] + "\n")));
    assert Step(env, reg, s, lines[0]) == StepResult(s', [], false);
    EmptyFront(Run(env, reg, s', lines[1..]).replies);
  }

  /**
   * A whole DATA transaction from a state that allows it: 354, then the body
   * up to the terminator, then OK with the sender, recipients and body
   * delivered once and MAIL allowed next.
   */
  lemma DataTransaction(env: Env, reg: CommandTable, s: Session, line: string, lines: seq<string>)
    requires CommandData in reg && reg[CommandData].Some? && New(reg[CommandData].value) == NewDataCommand()
    requires s.mode == Waiting && ReadCommandName(line) == CommandData && CommandData in s.next
    requires CollectBody(lines).Some?
    ensures var body := CollectBody(lines).value.0;
      var done := Session(Waiting, [CommandMail], Exchanges.Done(SetBody(s.ex, body)));
      var after := Run(env, reg, done, CollectBody(lines).value.1);
      Run(env, reg, s, [line] + lines)
        == RunResult(after.session, [Reply(ReplyDataStart, DataStartText), OkReply()] + after.replies, after.quit)
  {
    var started := Session(InCommand(Data(true, "")), s.next, s.ex);
    assert Step(env, reg, s, line) == StepResult(started, [Reply(ReplyDataStart, DataStartText)], false) by {
      Dispatch(env, reg, s, line, CommandData);
    }
    assert ([line] + lines)[0] == line && ([line] + lines)[1..] == lines;
    var body := CollectBody(lines).value.0;
    assert "" + body == body;
    DataStreamMatchesBatch(env, reg, started, "", lines);
    var after := Run(env, reg, Session(Waiting, [CommandMail], Exchanges.Done(SetBody(s.ex, body))), CollectBody(lines).value.1);
    ConsTwo(Reply(ReplyDataStart, DataStartText), OkReply(), after.replies);
  }

  /** An implemented verb other than QUIT that is allowed next runs its command on the line. */
  lemma Dispatch(env: Env, reg: CommandTable, s: Session, line: string, name: string)
    requires s.mode == Waiting && ReadCommandName(line) == name && name != CommandQuit
    requires name in reg && reg[name].Some? && name in s.next
    ensures Step(env, reg, s, line) == ProcessCommand(s, New(reg[name].value), line, env)
  {
  }
}
