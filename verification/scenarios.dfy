/**
 * Whole conversations with the newer loop and the default registry, the
 * exchanges integration_test.go drives a live server through: a complete
 * delivery to two recipients, a refused sender, DATA out of sequence, and
 * VRFY. The address parser is left abstract; each scenario says only which
 * strings it accepts or refuses.
 */
module Scenarios {
  import opened Sequences
  import opened Wrappers
  import opened Strings
  import opened Protocol
  import opened Replies
  import opened Exchanges
  import opened DomainName
  import opened DomainLabels
  import opened Commands
  import opened Registry
  import opened ProtocolLoop
  import LoopProperties

  /** "testing", the client name the tests announce, is a valid domain name. */
  lemma TestingIsDomainName()
    ensures ValidDomainName("testing")
  {
    SplitNoSep("testing", '.');
    assert LabelOk("testing");
    assert IsLetter("testing"[0]);
    ValidDomainNameByLabels("testing");
  }

  /** HELO naming "testing" is accepted on a fresh exchange, and the reply names the server. */
  lemma HeloTesting(env: Env)
    ensures ProcessHelo("HELO testing", NewExchange, env)
      == Processed(Some(Reply(ReplyOK, "HELO " + env.hostname)), Done, Helo, NewExchange.(domain := "testing"))
  {
    TestingIsDomainName();
    assert "HELO testing"[..5] == "HELO " && "HELO testing"[5..] == "testing";
    assert Util.GetSuffix("HELO testing", "HELO ") == Some("testing");
  }

  /** HELO with a valid name, from the initial state: 250 naming the server, and MAIL allowed next. */
  lemma HeloFromStart(env: Env)
    ensures Step(env, DefaultCommands(), InitialSession(), "HELO testing")
      == StepResult(Session(Waiting, [CommandMail], NewExchange.(domain := "testing")),
                    [Reply(ReplyOK, "HELO " + env.hostname)], false)
  {
    ReadsVerb("HELO testing", CommandHelo);
    LoopProperties.Dispatch(env, DefaultCommands(), InitialSession(), "HELO testing", CommandHelo);
    assert New(DefaultCommands()[CommandHelo].value) == Helo;
    HeloTesting(env);
  }

  /** The registry entries a delivery uses, set as `defaultCommands` sets them. */
  predicate DeliveryVerbs(reg: CommandTable)
  {
    && CommandMail in reg && reg[CommandMail].Some? && New(reg[CommandMail].value) == Mail(CommandMail)
    && CommandRcpt in reg && reg[CommandRcpt].Some? && New(reg[CommandRcpt].value) == Rcpt
    && CommandData in reg && reg[CommandData].Some? && New(reg[CommandData].value) == Data(false, "")
  }

  /** `defaultCommands` is such a registry. */
  lemma DefaultDeliveryVerbs()
    ensures DeliveryVerbs(DefaultCommands())
  {
  }

  /** The sessions a delivery passes through, from MAIL allowed to delivered. */
  function AfterMail(s: Session, a: Address): Session
  {
    Session(Waiting, [CommandRcpt, CommandRset], s.ex.(from := Some(a), to := []))
  }

  /** A sender the parser accepts: OK, the transaction restarts with that sender, and RCPT is allowed. */
  lemma MailStep(env: Env, reg: CommandTable, s: Session, raw: string)
    requires s.mode == Waiting && CommandMail in s.next && DeliveryVerbs(reg) && env.parse(raw).Ok?
    ensures Step(env, reg, s, "MAIL FROM:" + raw) == StepResult(AfterMail(s, env.parse(raw).value), [OkReply()], false)
  {
    var line := "MAIL FROM:" + raw;
    assert line[..4] == CommandMail;
    ReadsVerb(line, CommandMail);
    LoopProperties.Dispatch(env, reg, s, line, CommandMail);
    Util.GetSuffixRoundTrip("MAIL FROM:", raw, CommandMail + " FROM:");
  }

  /** A recipient the parser accepts: OK, the recipient is appended, and DATA is allowed. */
  lemma RcptStep(env: Env, reg: CommandTable, s: Session, raw: string)
    requires s.mode == Waiting && CommandRcpt in s.next && DeliveryVerbs(reg) && env.parse(raw).Ok?
    ensures Step(env, reg, s, "RCPT TO:" + raw)
      == StepResult(Session(Waiting, [CommandData, CommandRcpt, CommandRset], s.ex.(to := s.ex.to + [env.parse(raw).value])),
                    [OkReply()], false)
  {
    var line := "RCPT TO:" + raw;
    assert line[..4] == CommandRcpt;
    ReadsVerb(line, CommandRcpt);
    LoopProperties.Dispatch(env, reg, s, line, CommandRcpt);
    Util.GetSuffixRoundTrip("RCPT TO:", raw, "RCPT TO:");
  }

  /** DATA, one body line and the terminator: 354, nothing, then OK with the body delivered. */
  lemma DataSteps(env: Env, reg: CommandTable, s: Session)
    requires s.mode == Waiting && CommandData in s.next && DeliveryVerbs(reg)
    ensures var started := s.(mode := InCommand(Data(true, "")));
      var buffered := s.(mode := InCommand(Data(true, "hi\n")));
      && Step(env, reg, s, "DATA") == StepResult(started, [Reply(ReplyDataStart, DataStartText)], false)
      && Step(env, reg, started, "hi") == StepResult(buffered, [], false)
      && Step(env, reg, buffered, ".")
         == StepResult(Session(Waiting, [CommandMail], Exchanges.Done(SetBody(s.ex, "hi\n"))), [OkReply()], false)
  {
    ReadsVerb("DATA", CommandData);
    LoopProperties.Dispatch(env, reg, s, "DATA", CommandData);
    assert "" + "hi" + "\n" == "hi\n";
  }

  /** DATA, a one-line body, the terminator and QUIT, from any state that allows DATA. */
  lemma DataThenQuit(env: Env, reg: CommandTable, s: Session)
    requires s.mode == Waiting && CommandData in s.next && DeliveryVerbs(reg)
    ensures Run(env, reg, s, ["DATA", "hi", ".", "QUIT"])
      == RunResult(Session(Waiting, [CommandMail], Exchanges.Done(SetBody(s.ex, "hi\n"))),
                   [Reply(ReplyDataStart, DataStartText), OkReply(), Reply(ReplyServiceClosing, ClosingText)], true)
  {
    var s4 := s.(mode := InCommand(Data(true, "")));
    var s5 := s.(mode := InCommand(Data(true, "hi\n")));
    var s6 := Session(Waiting, [CommandMail], Exchanges.Done(SetBody(s.ex, "hi\n")));
    DataSteps(env, reg, s);
    ReadsVerb("QUIT", CommandQuit);
    RunCons(env, reg, s6, "QUIT", []);
    RunThree(env, reg, s, "DATA", "hi", ".", ["QUIT"]);
    assert ["DATA", "hi", ".", "QUIT"] == ["DATA", "hi", "."] + ["QUIT"];
  }

  /** The state after MAIL and two RCPT lines, all accepted. */
  function Addressed(s: Session, a: Address, c: Address, e: Address): Session
  {
    Session(Waiting, [CommandData, CommandRcpt, CommandRset], s.ex.(from := Some(a), to := [c, e]))
  }

  /** MAIL and two RCPT lines the parser accepts, followed by anything: three OK replies, then the rest. */
  lemma SenderAndTwoRecipients(env: Env, reg: CommandTable, s: Session, a: string, c: string, e: string, tail: seq<string>)
    requires s.mode == Waiting && CommandMail in s.next && DeliveryVerbs(reg)
    requires env.parse(a).Ok? && env.parse(c).Ok? && env.parse(e).Ok?
    ensures var s3 := Addressed(s, env.parse(a).value, env.parse(c).value, env.parse(e).value);
      var t := Run(env, reg, s3, tail);
      Run(env, reg, s, ["MAIL FROM:" + a, "RCPT TO:" + c, "RCPT TO:" + e] + tail)
        == RunResult(t.session, [OkReply(), OkReply(), OkReply()] + t.replies, t.quit)
  {
    var pa, pc, pe := env.parse(a).value, env.parse(c).value, env.parse(e).value;
    var s1 := AfterMail(s, pa);
    var s2 := Session(Waiting, [CommandData, CommandRcpt, CommandRset], s1.ex.(to := [pc]));
    MailStep(env, reg, s, a);
    RcptStep(env, reg, s1, c);
    assert s1.ex.to + [pc] == [pc];
    RcptStep(env, reg, s2, e);
    assert s2.ex.to + [pe] == [pc, pe];
    var t := Run(env, reg, Addressed(s, pa, pc, pe), tail);
    Thrice(OkReply(), t.replies);
    RunThree(env, reg, s, "MAIL FROM:" + a, "RCPT TO:" + c, "RCPT TO:" + e, tail);
  }

  /** Three lines none of which stops the loop, then the rest of the input. */
  lemma RunThree(env: Env, reg: CommandTable, s: Session, l1: string, l2: string, l3: string, tail: seq<string>)
    ensures var r1 := Step(env, reg, s, l1);
      var r2 := Step(env, reg, r1.session, l2);
      var r3 := Step(env, reg, r2.session, l3);
      var t := Run(env, reg, r3.session, tail);
      !r1.stop && !r2.stop && !r3.stop ==>
        Run(env, reg, s, [l1, l2, l3] + tail)
          == RunResult(t.session, r1.replies + r2.replies + r3.replies + t.replies, t.quit)
  {
    var r1 := Step(env, reg, s, l1);
    var r2 := Step(env, reg, r1.session, l2);
    var r3 := Step(env, reg, r2.session, l3);
    if !r1.stop && !r2.stop && !r3.stop {
      RunCons(env, reg, r2.session, l3, tail);
      RunCons(env, reg, r1.session, l2, [l3] + tail);
      RunCons(env, reg, s, l1, [l2] + ([l3] + tail));
      Nest(l1, l2, l3, tail);
      Regroup(r1.replies, r2.replies, r3.replies, Run(env, reg, r3.session, tail).replies);
    }
  }

  /** The replies of a delivery to two recipients ended by QUIT. */
  const SendMailReplies: seq<Reply> :=
    [OkReply(), OkReply(), OkReply(), Reply(ReplyDataStart, DataStartText), OkReply(),
     Reply(ReplyServiceClosing, ClosingText)]

  lemma SendMailRun(env: Env, reg: CommandTable, s: Session, a: string, c: string, e: string, lines: seq<string>)
    requires s.mode == Waiting && CommandMail in s.next && DeliveryVerbs(reg)
    requires env.parse(a).Ok? && env.parse(c).Ok? && env.parse(e).Ok?
    requires lines == ["MAIL FROM:" + a, "RCPT TO:" + c, "RCPT TO:" + e] + ["DATA", "hi", ".", "QUIT"]
    ensures var s3 := Addressed(s, env.parse(a).value, env.parse(c).value, env.parse(e).value);
      Run(env, reg, s, lines)
        == RunResult(Session(Waiting, [CommandMail], Exchanges.Done(SetBody(s3.ex, "hi\n"))), SendMailReplies, true)
  {
    var s3 := Addressed(s, env.parse(a).value, env.parse(c).value, env.parse(e).value);
    SenderAndTwoRecipients(env, reg, s, a, c, e, ["DATA", "hi", ".", "QUIT"]);
    DataThenQuit(env, reg, s3);
    assert [OkReply(), OkReply(), OkReply()]
         + [Reply(ReplyDataStart, DataStartText), OkReply(), Reply(ReplyServiceClosing, ClosingText)] == SendMailReplies;
  }

  /**
   * A sender, two recipients, a one-line body and QUIT: every command is
   * answered in turn, and exactly one message with that sender, both
   * recipients in order and the body "hi\n" is delivered. This holds for
   * every registry that maps MAIL, RCPT and DATA as `defaultCommands` does.
   */
  lemma SendMail(env: Env, reg: CommandTable, s: Session, lines: seq<string>)
    requires s.mode == Waiting && CommandMail in s.next && DeliveryVerbs(reg)
    requires env.parse("<a@b>").Ok? && env.parse("<c@d>").Ok? && env.parse("<e@f>").Ok?
    requires lines == ["MAIL FROM:<a@b>", "RCPT TO:<c@d>", "RCPT TO:<e@f>", "DATA", "hi", ".", "QUIT"]
    ensures var r := Run(env, reg, s, lines);
      && r.quit
      && r.replies == SendMailReplies
      && r.session.ex.sent == s.ex.sent + [Message(Some(env.parse("<a@b>").value),
                                       [env.parse("<c@d>").value, env.parse("<e@f>").value], Some("hi\n"))]
      && r.session.ex.from == None && r.session.ex.to == [] && r.session.ex.domain == s.ex.domain
      && r.session.next == [CommandMail]
  {
    assert "MAIL FROM:" + "<a@b>" == "MAIL FROM:<a@b>";
    assert "RCPT TO:" + "<c@d>" == "RCPT TO:<c@d>";
    assert "RCPT TO:" + "<e@f>" == "RCPT TO:<e@f>";
    assert lines == ["MAIL FROM:" + "<a@b>", "RCPT TO:" + "<c@d>", "RCPT TO:" + "<e@f>"] + ["DATA", "hi", ".", "QUIT"];
    SendMailRun(env, reg, s, "<a@b>", "<c@d>", "<e@f>", lines);
  }

  /** The loop over a first line and the rest: the step, then the rest unless the step stopped. */
  lemma RunCons(env: Env, reg: CommandTable, s: Session, line: string, rest: seq<string>)
    ensures var r := Step(env, reg, s, line);
      var more := Run(env, reg, r.session, rest);
      Run(env, reg, s, [line] + rest)
        == if r.stop then RunResult(r.session, r.replies, true)
           else RunResult(more.session, r.replies + more.replies, more.quit)
  {
    assert ([line] + rest)[0] == line && ([line] + rest)[1..] == rest;
  }

  /** A sender the parser refuses: 553 with the parser's text, and the transaction stays empty. */
  lemma MailError(env: Env, s: Session)
    requires s.mode == Waiting && s.next == [CommandMail]
    requires env.parse("<test@>").Err?
    ensures Step(env, DefaultCommands(), s, "MAIL FROM:<test@>")
      == StepResult(s.(ex := Reset(s.ex)), [Reply(ReplyInvalidMailboxSyntax, env.parse("<test@>").error)], false)
  {
    ReadsVerb("MAIL FROM:<test@>", CommandMail);
    LoopProperties.Dispatch(env, DefaultCommands(), s, "MAIL FROM:<test@>", CommandMail);
    assert New(DefaultCommands()[CommandMail].value) == Mail(CommandMail);
    assert "MAIL FROM:<test@>"[..10] == "MAIL FROM:" && "MAIL FROM:<test@>"[10..] == "<test@>";
  }

  /** A recipient the parser refuses: 553, the recipient list unchanged, RCPT still allowed. */
  lemma RcptError(env: Env, s: Session)
    requires s.mode == Waiting && s.next == [CommandRcpt, CommandRset]
    requires env.parse("<test@>").Err?
    ensures Step(env, DefaultCommands(), s, "RCPT TO:<test@>")
      == StepResult(s, [Reply(ReplyInvalidMailboxSyntax, env.parse("<test@>").error)], false)
  {
    ReadsVerb("RCPT TO:<test@>", CommandRcpt);
    LoopProperties.Dispatch(env, DefaultCommands(), s, "RCPT TO:<test@>", CommandRcpt);
    assert New(DefaultCommands()[CommandRcpt].value) == Rcpt;
    assert "RCPT TO:<test@>"[..8] == "RCPT TO:" && "RCPT TO:<test@>"[8..] == "<test@>";
  }

  /** DATA as the first command of a connection: 503 after the greeting, nothing else. */
  lemma SequenceError(env: Env)
    ensures Serve(env, DefaultCommands(), ["DATA"]).replies
      == [Reply(ReplyServiceReady, ReadyText), Reply(ReplyBadSequence, BadSequenceText)]
  {
    assert ReadCommandName("DATA") == CommandData;
  }

  /** VRFY in any waiting state: 502, nothing else changes. */
  lemma NotImplementedError(env: Env, s: Session)
    requires s.mode == Waiting
    ensures Step(env, DefaultCommands(), s, "VRFY <test@example.com>")
      == StepResult(s, [Reply(ReplyNotImplemented, NotImplementedText)], false)
  {
    assert ReadCommandName("VRFY <test@example.com>") == CommandVrfy;
  }
}
