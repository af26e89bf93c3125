/**
 * Sequencing properties of the older loop (`run` of main.go, `handle` of
 * handle.go), and agreement of its DATA with the newer loop's.
 */
module LegacyProperties {
  import opened Sequences
  import opened Wrappers
  import opened Strings
  import opened Util
  import opened Protocol
  import opened Replies
  import opened Exchanges
  import opened DataBody
  import opened LegacyLoop
  import Commands
  import Registry
  import ProtocolLoop
  import LoopProperties
  import DomainName

  /**
   * The loop's own replies, both ways: QUIT (221) ends the session; 502 means
   * a verb on the not-implemented list, checked before the table; 500 a verb
   * the table lacks; 503 a stateful verb that is not an allowed successor.
   * None of them runs a command or changes anything.
   */
  lemma LegacyLoopReplies(v: Variant, env: Env, next: seq<string>, ex: Exchange, line: string, rest: seq<string>)
    ensures var r := Step(v, env, next, ex, line, rest);
      var name := VerbOf(v, line);
      var known := name != CommandQuit && !Contains(Unimplemented, name) && name in LegacyCommands();
      && (r.quit <==> name == CommandQuit)
      && (ReplyNotImplemented in Codes(r.replies) <==> name != CommandQuit && Contains(Unimplemented, name))
      && (ReplyUnknown in Codes(r.replies) <==>
            name != CommandQuit && !Contains(Unimplemented, name) && name !in LegacyCommands())
      && (ReplyBadSequence in Codes(r.replies) <==>
            known && !LegacyCommands()[name].stateless && !Contains(next, name))
      && ((r.quit || ReplyNotImplemented in Codes(r.replies) || ReplyUnknown in Codes(r.replies)
           || ReplyBadSequence in Codes(r.replies))
          ==> r.next == next && r.ex == ex && r.rest == Some(rest))
  {
    var r := Step(v, env, next, ex, line, rest);
    var name := VerbOf(v, line);
    if name == CommandQuit || Contains(Unimplemented, name) || name !in LegacyCommands()
       || (!LegacyCommands()[name].stateless && !Contains(next, name)) {
      assert r.replies == [r.replies[0]];
      OneCode(r.replies[0]);
    } else {
      assert r.replies == RunCommand(v, env, name, line, ex, rest).replies;
    }
  }

  /** NOOP is stateless: it runs in any state and leaves the allowed successors and the exchange alone. */
  lemma LegacyNoopKeepsNext(v: Variant, env: Env, next: seq<string>, ex: Exchange, line: string, rest: seq<string>)
    requires VerbOf(v, line) == CommandNoop
    ensures Step(v, env, next, ex, line, rest) == LegacyStep([Reply(ReplyOK, "noop")], next, ex, Some(rest), false)
  {
  }

  /** QUIT ends the older loop with 221 and leaves the rest of the input unread. */
  lemma LegacyQuitEndsInput(v: Variant, env: Env, next: seq<string>, ex: Exchange, line: string, rest: seq<string>)
    requires VerbOf(v, line) == CommandQuit
    ensures Loop(v, env, next, ex, [line] + rest)
      == LegacyRun([Reply(ReplyServiceClosing, "Service closing transmission channel")], next, ex, Quit)
  {
    assert ([line] + rest)[0] == line;
  }

  /** A reply announcing an accepted HELO: 250 with text starting "HELO ". */
  predicate IsHeloGreeting(r: Reply)
  {
    r.code == ReplyOK && HasPrefix(r.msg, "HELO ")
  }

  function CountHeloGreetings(rs: seq<Reply>): nat
  {
    if |rs| == 0 then 0 else (if IsHeloGreeting(rs[0]) then 1 else 0) + CountHeloGreetings(rs[1..])
  }

  lemma {:induction false} CountHeloGreetingsAppend(a: seq<Reply>, b: seq<Reply>)
    ensures CountHeloGreetings(a + b) == CountHeloGreetings(a) + CountHeloGreetings(b)
    decreases |a|
  {
    if |a| == 0 {
      assert a + b == b;
    } else {
      assert (a + b)[0] == a[0];
      assert (a + b)[1..] == a[1..] + b;
      CountHeloGreetingsAppend(a[1..], b);
    }
  }

  /** A step announces an accepted HELO only when HELO was allowed, and then takes it out; no step puts it back. */
  lemma LegacyStepAndHelo(v: Variant, env: Env, next: seq<string>, ex: Exchange, line: string, rest: seq<string>)
    ensures var r := Step(v, env, next, ex, line, rest);
      && CountHeloGreetings(r.replies) <= 1
      && (CommandHelo in r.next ==> CommandHelo in next)
      && (CountHeloGreetings(r.replies) == 1 ==> CommandHelo in next && CommandHelo !in r.next)
  {
    var name := VerbOf(v, line);
    if name == CommandQuit || Contains(Unimplemented, name) || name !in LegacyCommands()
       || (!LegacyCommands()[name].stateless && !Contains(next, name)) {
      LoopOwnReply(v, env, next, ex, line, rest);
    } else {
      CommandStep(v, env, next, ex, line, rest);
    }
  }

  /** The loop's own answers are single replies that are not HELO greetings and keep the successors. */
  lemma LoopOwnReply(v: Variant, env: Env, next: seq<string>, ex: Exchange, line: string, rest: seq<string>)
    requires var name := VerbOf(v, line);
      name == CommandQuit || Contains(Unimplemented, name) || name !in LegacyCommands()
      || (!LegacyCommands()[name].stateless && !Contains(next, name))
    ensures var r := Step(v, env, next, ex, line, rest);
      CountHeloGreetings(r.replies) == 0 && r.next == next
  {
    var r := Step(v, env, next, ex, line, rest);
    assert |r.replies| == 1 && r.replies[0].code != ReplyOK && r.next == next;
    OneReplyCount(r.replies[0]);
  }

  /** A step that runs a command takes on its greetings, and its successors never include HELO. */
  lemma CommandStep(v: Variant, env: Env, next: seq<string>, ex: Exchange, line: string, rest: seq<string>)
    requires var name := VerbOf(v, line);
      && name != CommandQuit && !Contains(Unimplemented, name) && name in LegacyCommands()
      && (LegacyCommands()[name].stateless || Contains(next, name))
    ensures var r := Step(v, env, next, ex, line, rest);
      && CountHeloGreetings(r.replies) <= 1
      && (CommandHelo in r.next ==> CommandHelo in next)
      && (CountHeloGreetings(r.replies) == 1 ==> CommandHelo in next && CommandHelo !in r.next)
  {
    var name := VerbOf(v, line);
    var cmd := LegacyCommands()[name];
    var o := RunCommand(v, env, name, line, ex, rest);
    StepRunsCommand(v, env, next, ex, line, rest);
    CommandGreetings(v, env, name, line, ex, rest);
    LegacyNextNoHelo(name);
    if CountHeloGreetings(o.replies) == 1 {
      assert name == CommandHelo && !cmd.stateless && Contains(next, name);
    }
  }

  /** Past the loop's own checks, a step is the command's run, taking its successors only on success of a stateful command. */
  lemma StepRunsCommand(v: Variant, env: Env, next: seq<string>, ex: Exchange, line: string, rest: seq<string>)
    requires var name := VerbOf(v, line);
      && name != CommandQuit && !Contains(Unimplemented, name) && name in LegacyCommands()
      && (LegacyCommands()[name].stateless || Contains(next, name))
    ensures var name := VerbOf(v, line);
      var cmd := LegacyCommands()[name];
      var o := RunCommand(v, env, name, line, ex, rest);
      Step(v, env, next, ex, line, rest)
        == LegacyStep(o.replies, if !cmd.stateless && o.ok then cmd.next else next, o.ex, o.rest, false)
  {
  }

  /** No command of the older table lists HELO among its successors. */
  lemma LegacyNextNoHelo(name: string)
    requires name in LegacyCommands()
    ensures CommandHelo !in LegacyCommands()[name].next
  {
  }

  /** Only HELO can announce itself, at most once, and only when it succeeds. */
  lemma CommandGreetings(v: Variant, env: Env, name: string, line: string, ex: Exchange, rest: seq<string>)
    requires name in LegacyCommands()
    ensures var o := RunCommand(v, env, name, line, ex, rest);
      && CountHeloGreetings(o.replies) <= 1
      && (CountHeloGreetings(o.replies) == 1 ==> name == CommandHelo && o.ok)
  {
    var o := RunCommand(v, env, name, line, ex, rest);
    if name != CommandHelo {
      NoGreetingCounted(o.replies);
    } else {
      assert o.replies == [o.replies[0]];
      OneReplyCount(o.replies[0]);
    }
  }

  lemma OneReplyCount(r: Reply)
    ensures CountHeloGreetings([r]) == if IsHeloGreeting(r) then 1 else 0
  {
    assert [r][1..] == [];
  }

  lemma {:induction false} NoGreetingCounted(rs: seq<Reply>)
    requires forall i :: 0 <= i < |rs| ==> !IsHeloGreeting(rs[i])
    ensures CountHeloGreetings(rs) == 0
    decreases |rs|
  {
    if |rs| > 0 {
      NoGreetingCounted(rs[1..]);
    }
  }

  /** Along any run of the older loop, at most one HELO is accepted, and none once HELO is no longer allowed. */
  lemma {:induction false} LegacyHeloAtMostOnce(v: Variant, env: Env, next: seq<string>, ex: Exchange, lines: seq<string>)
    ensures CountHeloGreetings(Loop(v, env, next, ex, lines).replies) <= if CommandHelo in next then 1 else 0
    decreases |lines|
  {
    if |lines| > 0 {
      var r := Step(v, env, next, ex, lines[0], lines[1..]);
      LegacyStepAndHelo(v, env, next, ex, lines[0], lines[1..]);
      if !r.quit && r.rest.Some? {
        var more := Loop(v, env, r.next, r.ex, r.rest.value);
        LegacyHeloAtMostOnce(v, env, r.next, r.ex, r.rest.value);
        CountHeloGreetingsAppend(r.replies, more.replies);
      }
    }
  }

  /** In a whole connection of either variant, HELO is accepted at most once. */
  lemma LegacyHeloOncePerConnection(v: Variant, env: Env, lines: seq<string>)
    ensures CountHeloGreetings(Session(v, env, lines).replies) <= 1
  {
    LegacyHeloAtMostOnce(v, env, [CommandHelo], NewExchange, lines);
    var r := Loop(v, env, [CommandHelo], NewExchange, lines);
    CountHeloGreetingsAppend([Reply(ReplyServiceReady, "Simple Mail Transfer Service Ready")], r.replies);
  }

  /**
   * `run` does not fold case, so a lower-case "helo" is unknown (500);
   * `handle` folds both the verb and, through util.go's `getSuffix`, the
   * argument prefix, so the same line greets and records the domain.
   */
  lemma LowerCaseHelo(env: Env, ex: Exchange, rest: seq<string>)
    ensures Step(MainRun, env, [CommandHelo], ex, "helo a.test", rest).replies
            == [Reply(ReplyUnknown, "unrecognized command")]
    ensures var r, domain := Step(HandleLoop, env, [CommandHelo], ex, "helo a.test", rest), "a.test";
      && r.replies == [Reply(ReplyOK, "HELO " + domain)]
      && r.ex == ex.(domain := domain)
      && r.next == [CommandMail]
  {
    assert SafeSubstring("helo a.test", 4) == "helo";
    LowerVerbUnknown("helo");
    HandleFoldsHelo(env, ex, rest);
  }

  /** `handle` reads "helo a.test" as HELO with the argument "a.test". */
  lemma HandleFoldsHelo(env: Env, ex: Exchange, rest: seq<string>)
    ensures var r, domain := Step(HandleLoop, env, [CommandHelo], ex, "helo a.test", rest), "a.test";
      && r.replies == [Reply(ReplyOK, "HELO " + domain)]
      && r.ex == ex.(domain := domain)
      && r.next == [CommandMail]
  {
    var line := "helo a.test";
    assert SafeSubstring(line, 4) == "helo";
    assert Upper("helo") == "HELO";
    assert VerbOf(HandleLoop, line) == CommandHelo;
    StepRunsCommand(HandleLoop, env, [CommandHelo], ex, line, rest);
    FoldedHeloArgument();
    DomainName.TrailingDotAccepted();
  }

  lemma FoldedHeloArgument()
    ensures Argument(HandleLoop, "helo a.test", "HELO ") == Some("a.test")
  {
    var line := "helo a.test";
    assert line[..5] == "helo ";
    assert Upper("helo ") == Upper("HELO ");
    assert line[5..] == "a.test";
  }

  /** A verb starting with a lower-case letter names no entry of the older loop's tables. */
  lemma LowerVerbUnknown(name: string)
    requires |name| > 0 && 'a' <= name[0] <= 'z'
    ensures name != CommandQuit && !Contains(Unimplemented, name) && name !in LegacyCommands()
  {
    forall i | 0 <= i < |Unimplemented|
      ensures Unimplemented[i] != name
    {
      assert Unimplemented[i][0] != name[0];
    }
    forall k | k in LegacyCommands()
      ensures k != name
    {
      assert k[0] != name[0];
    }
  }

  /** DATA whose body never meets a terminator line never returns: the session hangs. */
  lemma DataWithoutTerminatorHangs(v: Variant, env: Env, next: seq<string>, ex: Exchange, line: string, lines: seq<string>)
    requires VerbOf(v, line) == CommandData && CommandData in next
    requires forall j :: 0 <= j < |lines| ==> !IsTerminator(lines[j])
    ensures Loop(v, env, next, ex, [line] + lines).ending == Hung
  {
    CollectBodyWithoutTerminator(lines);
    ConsParts(line, lines);
    DataRunsReader(v, env, next, ex, line, lines);
  }

  /** The older DATA, when allowed and terminated: 354 and OK, one delivery, MAIL next, input resumed after the terminator. */
  lemma LegacyDataStep(v: Variant, env: Env, next: seq<string>, ex: Exchange, line: string, lines: seq<string>)
    requires VerbOf(v, line) == CommandData && CommandData in next
    requires CollectBody(lines).Some?
    ensures var (body, after) := CollectBody(lines).value;
      Step(v, env, next, ex, line, lines) == LegacyStep(
        [Reply(ReplyDataStart, Commands.DataStartText), Reply(ReplyOK, "OK")],
        [CommandMail], Exchanges.Done(SetBody(ex, body)), Some(after), false)
  {
    DataRunsReader(v, env, next, ex, line, lines);
    var (body, after) := CollectBody(lines).value;
    assert RunData(ex, lines) == RunOutcome(true, [Reply(ReplyDataStart, Commands.DataStartText), Reply(ReplyOK, "OK")],
                                            Exchanges.Done(SetBody(ex, body)), Some(after));
  }

  /** An allowed DATA in the older loop hands the rest of the input to command_data.go's reader. */
  lemma DataRunsReader(v: Variant, env: Env, next: seq<string>, ex: Exchange, line: string, lines: seq<string>)
    requires VerbOf(v, line) == CommandData && CommandData in next
    ensures var o := RunData(ex, lines);
      Step(v, env, next, ex, line, lines) == LegacyStep(o.replies, if o.ok then [CommandMail] else next, o.ex, o.rest, false)
  {
    assert !Contains(Unimplemented, CommandData);
    assert CommandData in LegacyCommands() && LegacyCommands()[CommandData] == LegacyCommand(CommandData, [CommandMail], false);
    assert Contains(next, CommandData);
    assert RunCommand(v, env, CommandData, line, ex, lines) == RunData(ex, lines);
  }

  /**
   * Both revisions complete a DATA transaction alike: the newer loop, fed the
   * body line by line, ends with the exchange and the successors of the
   * older loop's DATA, which reads the body itself, and with the same reply codes.
   */
  lemma DataAgreesAcrossRevisions(v: Variant, env: Env, s: ProtocolLoop.Session, line: string, lines: seq<string>)
    requires s.mode == ProtocolLoop.Waiting
    requires VerbOf(v, line) == CommandData && Registry.ReadCommandName(line) == CommandData
    requires CommandData in s.next
    requires CollectBody(lines).Some?
    ensures var prev := Step(v, env, s.next, s.ex, line, lines);
      var after := CollectBody(lines).value.1;
      var streamed := ProtocolLoop.Run(env, Registry.DefaultCommands(), s, [line] + lines[..|lines| - |after|]);
      && streamed.session == ProtocolLoop.Session(ProtocolLoop.Waiting, prev.next, prev.ex)
      && Codes(streamed.replies) == Codes(prev.replies) == {ReplyDataStart, ReplyOK}
      && prev.rest == Some(after)
  {
    var after := CollectBody(lines).value.1;
    var consumed := lines[..|lines| - |after|];
    var body := CollectBody(lines).value.0;
    var done := ProtocolLoop.Session(ProtocolLoop.Waiting, [CommandMail], Exchanges.Done(SetBody(s.ex, body)));
    var replies := [Reply(ReplyDataStart, Commands.DataStartText), Reply(ReplyOK, "OK")];
    assert Step(v, env, s.next, s.ex, line, lines) == LegacyStep(replies, [CommandMail], done.ex, Some(after), false) by {
      LegacyDataStep(v, env, s.next, s.ex, line, lines);
    }
    assert ProtocolLoop.Run(env, Registry.DefaultCommands(), s, [line] + consumed)
        == ProtocolLoop.RunResult(done, replies, false) by {
      CollectBodyPrefix(lines, |lines| - |after|);
      Registry.RegistryFactories(CommandData);
      LoopProperties.DataTransaction(env, Registry.DefaultCommands(), s, line, consumed);
      assert ProtocolLoop.Run(env, Registry.DefaultCommands(), done, []) == ProtocolLoop.RunResult(done, [], false);
      EmptyBack(replies);
    }
    TwoCodes(replies[0], replies[1]);
    assert [replies[0], replies[1]] == replies;
  }

  lemma OneCode(a: Reply)
    ensures Codes([a]) == {a.code}
  {
    assert [a][0] == a;
  }

  lemma TwoCodes(a: Reply, b: Reply)
    ensures Codes([a, b]) == {a.code, b.code}
  {
    assert [a, b][0] == a && [a, b][1] == b;
  }

  /** Cutting the input right after the terminator does not change what the body reader returns. */
  lemma {:induction false} CollectBodyPrefix(lines: seq<string>, n: nat)
    requires CollectBody(lines).Some? && n == |lines| - |CollectBody(lines).value.1|
    ensures n <= |lines| && lines[n..] == CollectBody(lines).value.1
    ensures CollectBody(lines[..n]) == Some((CollectBody(lines).value.0, []))
    decreases |lines|
  {
    if IsTerminator(lines[0]) {
      assert lines[..n] == [lines[0]];
    } else {
      CollectBodyPrefix(lines[1..], n - 1);
      assert lines[..n][1..] == lines[1..][..n - 1];
    }
  }
}
