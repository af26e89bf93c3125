/**
 * The session state machine `protocolLoop` of protocol_loop.go as a pure
 * step from (session, line) to (session, replies, stop?), started in the
 * state server.go gives it: `next = [HELO]`, waiting for a command.
 *
 * Go's `waiting` flag and `command` field are folded into `Mode`: while
 * waiting, the retained command is never read, so `Waiting` carries none.
 */
module ProtocolLoop {
  import opened Wrappers
  import opened Util
  import opened Protocol
  import opened Replies
  import opened Exchanges
  import opened DataBody
  import opened Commands
  import opened Registry

  datatype Mode = Waiting | InCommand(cmd: Command)

  datatype Session = Session(mode: Mode, next: seq<string>, ex: Exchange)

  datatype StepResult = StepResult(session: Session, replies: seq<Reply>, stop: bool)

  const ReadyText := "Simple Mail Transfer Service Ready"
  const ClosingText := "Service closing transmission channel"
  const UnknownText := "unrecognized command"
  const NotImplementedText := "not implemented"
  const BadSequenceText := "bad command sequence"

  /** The loop as server.go builds it: only HELO may come first. */
  function InitialSession(): Session
  {
    Session(Waiting, [CommandHelo], NewExchange)
  }

  /** `canRun`: a stateless command always runs; any other only when its verb is an allowed successor. */
  predicate CanRun(s: Session, name: string, c: Command)
  {
    Stateless(c) || Contains(s.next, name)
  }

  /**
   * `processCommand`: a failure returns to waiting with `next` unchanged; a
   * finished command returns to waiting and installs its successors unless it
   * is stateless; an unfinished one (DATA) keeps the loop in the command.
   */
  function ProcessCommand(s: Session, c: Command, line: string, env: Env): (r: StepResult)
    ensures !r.stop
    ensures var p := Process(c, line, s.ex, env);
      && r.session.ex == p.ex
      && r.replies == (if p.reply.Some? then [p.reply.value] else [])
      && (p.outcome == Continue <==> r.session.mode == InCommand(p.cmd))
      && (p.outcome != Continue <==> r.session.mode == Waiting)
      && (p.outcome == Done && !Stateless(c) ==> r.session.next == Next(c).value)
      && (p.outcome != Done || Stateless(c) ==> r.session.next == s.next)
  {
    var p := Process(c, line, s.ex, env);
    var replies := if p.reply.Some? then [p.reply.value] else [];
    match p.outcome
    case Fail => StepResult(Session(Waiting, s.next, p.ex), replies, false)
    case Continue => StepResult(Session(InCommand(p.cmd), s.next, p.ex), replies, false)
    case Done =>
      var next := if Next(p.cmd).Some? then Next(p.cmd).value else s.next;
      StepResult(Session(Waiting, next, p.ex), replies, false)
  }

  /** One iteration of `protocolLoop.Run` for one input line. */
  function Step(env: Env, reg: CommandTable, s: Session, line: string): StepResult
  {
    match s.mode
    case InCommand(c) => ProcessCommand(s, c, line, env)
    case Waiting =>
      var name := ReadCommandName(line);
      if name == CommandQuit then StepResult(s, [Reply(ReplyServiceClosing, ClosingText)], true)
      else if name !in reg then StepResult(s, [Reply(ReplyUnknown, UnknownText)], false)
      else if reg[name].None? then StepResult(s, [Reply(ReplyNotImplemented, NotImplementedText)], false)
      else
        var c := New(reg[name].value);
        if !CanRun(s, name, c) then StepResult(s, [Reply(ReplyBadSequence, BadSequenceText)], false)
        else ProcessCommand(s, c, line, env)
  }

  datatype RunResult = RunResult(session: Session, replies: seq<Reply>, quit: bool)

  /** The loop over the remaining input: it ends at QUIT or, silently, at the end of input. */
  function Run(env: Env, reg: CommandTable, s: Session, lines: seq<string>): RunResult
    decreases |lines|
  {
    if |lines| == 0 then RunResult(s, [], false)
    else
      var r := Step(env, reg, s, lines[0]);
      if r.stop then RunResult(r.session, r.replies, true)
      else
        var rest := Run(env, reg, r.session, lines[1..]);
        RunResult(rest.session, r.replies + rest.replies, rest.quit)
  }

  /** A whole connection: the 220 greeting before any line is read, then the loop from the initial state. */
  function Serve(env: Env, reg: CommandTable, lines: seq<string>): (r: RunResult)
    ensures |r.replies| >= 1 && r.replies[0] == Reply(ReplyServiceReady, ReadyText)
  {
    var r := Run(env, reg, InitialSession(), lines);
    RunResult(r.session, [Reply(ReplyServiceReady, ReadyText)] + r.replies, r.quit)
  }
}
