/**
 * The per-verb commands of command_helo.go, command_mail.go, command_rcpt.go,
 * command_rset.go, command_noop.go and the DATA command, each with its list
 * of allowed successors (`Next`) and its line processing (`Process`).
 *
 * The command files return `(*reply, bool)` while command.go declares
 * `(bool, error)`; here `Process` yields the reply (if any) and an `Outcome`:
 * a command's `false` is `Fail` (the loop's error path), `true` is `Done`,
 * and `Continue` is DATA asking for another line. DATA's internal buffer is
 * part of the command value, so `Process` also yields the updated command.
 */
module Commands {
  import opened Wrappers
  import opened Strings
  import opened Util
  import opened Protocol
  import opened Replies
  import opened Exchanges
  import opened DataBody
  import opened DomainName

  /** One command instance; `Mail` is shared by MAIL, SEND, SAML and SOML and keeps its own verb. */
  datatype Command =
    | Helo
    | Mail(name: string)
    | Rcpt
    | Rset
    | Noop
    | Data(started: bool, buf: string)

  datatype Outcome = Done | Continue | Fail

  datatype Processed = Processed(reply: Option<Reply>, outcome: Outcome, cmd: Command, ex: Exchange)

  /** The text of `ok()`, whose definition is not part of this model. */
  const OkText := "OK"
  const DataStartText := "start mail input; end with <CRLF>.<CRLF>"

  function OkReply(): Reply
  {
    Reply(ReplyOK, OkText)
  }

  /** `newDataCommand`: a DATA instance that has not yet answered 354 and holds no body. */
  function NewDataCommand(): Command
  {
    Data(false, "")
  }

  /** The verb under which a command is registered. */
  function Verb(c: Command): string
  {
    match c
    case Helo => CommandHelo
    case Mail(name) => name
    case Rcpt => CommandRcpt
    case Rset => CommandRset
    case Noop => CommandNoop
    case Data(_, _) => CommandData
  }

  /** `Next()`: the verbs allowed after the command completes; `None` (Go's nil) marks a stateless command. */
  function Next(c: Command): (r: Option<seq<string>>)
    ensures r.Some? ==> CommandHelo !in r.value
  {
    match c
    case Helo => Some([CommandMail])
    case Mail(_) => Some([CommandRcpt, CommandRset])
    case Rcpt => Some([CommandData, CommandRcpt, CommandRset])
    case Rset => Some([CommandMail])
    case Noop => None
    case Data(_, _) => Some([CommandMail])
  }

  /** `isStateless`: the command does not gate sequencing. */
  predicate Stateless(c: Command)
  {
    Next(c).None?
  }

  /** Only NOOP is stateless. */
  lemma StatelessIsNoop(c: Command)
    ensures Stateless(c) <==> c == Noop
  {
  }

  /**
   * command_helo.go: the argument is the line minus its first 5 bytes; it
   * must name a valid domain or IP literal. The success reply names the
   * server, not the client.
   */
  function ProcessHelo(line: string, ex: Exchange, env: Env): (r: Processed)
    ensures r.outcome != Continue && r.cmd == Helo
    ensures GetSuffix(line, "HELO ").None? ==>
      r == Processed(Some(Reply(ReplySyntaxError, "Syntax: HELO <domain>")), Fail, Helo, ex)
    ensures GetSuffix(line, "HELO ").Some? ==>
      var domain := GetSuffix(line, "HELO ").value;
      && (r.outcome == Done <==> SetDomain(ex, domain, env).Ok?)
      && (r.outcome == Done ==> r.ex == ex.(domain := domain)
                                && r.reply == Some(Reply(ReplyOK, "HELO " + env.hostname)))
      && (r.outcome == Fail ==> r.ex == ex && r.reply == Some(Reply(ReplySyntaxError, InvalidDomain)))
  {
    match GetSuffix(line, "HELO ")
    case None => Processed(Some(Reply(ReplySyntaxError, "Syntax: HELO <domain>")), Fail, Helo, ex)
    case Some(domain) => HeloWith(domain, ex, env)
  }

  /** HELO once its argument is cut from the line: the domain is recorded, or refused with 501. */
  function HeloWith(domain: string, ex: Exchange, env: Env): (r: Processed)
    ensures r.outcome != Continue && r.cmd == Helo
    ensures r.outcome == Done <==> SetDomain(ex, domain, env).Ok?
    ensures r.outcome == Done ==> r.ex == ex.(domain := domain) && r.reply == Some(Reply(ReplyOK, "HELO " + env.hostname))
    ensures r.outcome == Fail ==> r.ex == ex && r.reply == Some(Reply(ReplySyntaxError, InvalidDomain))
  {
    match SetDomain(ex, domain, env)
    case Err(e) => Processed(Some(Reply(ReplySyntaxError, e)), Fail, Helo, ex)
    case Ok(ex') => Processed(Some(Reply(ReplyOK, "HELO " + env.hostname)), Done, Helo, ex')
  }

  /**
   * command_mail.go, for MAIL and its aliases: the line must start with
   * `<name> FROM:`; the transaction is reset BEFORE the address is parsed, so
   * a 553 still leaves no sender and no recipients.
   */
  function ProcessMail(name: string, line: string, ex: Exchange, env: Env): (r: Processed)
    ensures r.outcome != Continue && r.cmd == Mail(name)
    ensures GetSuffix(line, name + " FROM:").None? ==>
      r == Processed(Some(Reply(ReplySyntaxError, "Syntax: " + name + " FROM: <address>")), Fail, Mail(name), ex)
    ensures GetSuffix(line, name + " FROM:").Some? ==>
      var raw := GetSuffix(line, name + " FROM:").value;
      && r.ex.from == (if env.parse(raw).Ok? then Some(env.parse(raw).value) else None)
      && r.ex.to == []
      && r.ex.domain == ex.domain && r.ex.body == ex.body && r.ex.sent == ex.sent
      && (r.outcome == Done <==> env.parse(raw).Ok?)
      && (r.outcome == Done ==> r.reply == Some(OkReply()))
      && (r.outcome == Fail ==> r.reply == Some(Reply(ReplyInvalidMailboxSyntax, env.parse(raw).error)))
  {
    var prefix := name + " FROM:";
    assert "Syntax: " + prefix + " <address>" == "Syntax: " + name + " FROM: <address>";
    match GetSuffix(line, prefix)
    case None => Processed(Some(Reply(ReplySyntaxError, "Syntax: " + prefix + " <address>")), Fail, Mail(name), ex)
    case Some(raw) => MailWith(name, raw, ex, env)
  }

  /** MAIL once its address is cut from the line: reset, then the sender recorded or refused with 553. */
  function MailWith(name: string, raw: string, ex: Exchange, env: Env): (r: Processed)
    ensures r.outcome != Continue && r.cmd == Mail(name)
    ensures r.ex.from == (if env.parse(raw).Ok? then Some(env.parse(raw).value) else None)
    ensures r.ex.to == [] && r.ex.domain == ex.domain && r.ex.body == ex.body && r.ex.sent == ex.sent
    ensures r.outcome == Done <==> env.parse(raw).Ok?
    ensures r.outcome == Done ==> r.reply == Some(OkReply())
    ensures r.outcome == Fail ==> r.reply == Some(Reply(ReplyInvalidMailboxSyntax, env.parse(raw).error))
  {
    var cleared := Reset(ex);
    match SetFrom(cleared, raw, env)
    case Err(e) => Processed(Some(Reply(ReplyInvalidMailboxSyntax, e)), Fail, Mail(name), cleared)
    case Ok(ex') => Processed(Some(OkReply()), Done, Mail(name), ex')
  }

  /** command_rcpt.go: the address follows the 8-byte prefix `RCPT TO:`; success appends one recipient. */
  function ProcessRcpt(line: string, ex: Exchange, env: Env): (r: Processed)
    ensures r.outcome != Continue && r.cmd == Rcpt
    ensures GetSuffix(line, "RCPT TO:").None? ==>
      r == Processed(Some(Reply(ReplySyntaxError, "Syntax: RCPT TO: <address>")), Fail, Rcpt, ex)
    ensures GetSuffix(line, "RCPT TO:").Some? ==>
      var raw := GetSuffix(line, "RCPT TO:").value;
      && (r.outcome == Done <==> env.parse(raw).Ok?)
      && (r.outcome == Done ==> r.ex == ex.(to := ex.to + [env.parse(raw).value])
                                && r.reply == Some(OkReply()))
      && (r.outcome == Fail ==> r.ex == ex
                                && r.reply == Some(Reply(ReplyInvalidMailboxSyntax, env.parse(raw).error)))
  {
    match GetSuffix(line, "RCPT TO:")
    case None => Processed(Some(Reply(ReplySyntaxError, "Syntax: RCPT TO: <address>")), Fail, Rcpt, ex)
    case Some(raw) => RcptWith(raw, ex, env)
  }

  /** RCPT once its address is cut from the line: the recipient appended, or refused with 553. */
  function RcptWith(raw: string, ex: Exchange, env: Env): (r: Processed)
    ensures r.outcome != Continue && r.cmd == Rcpt
    ensures r.outcome == Done <==> env.parse(raw).Ok?
    ensures r.outcome == Done ==> r.ex == ex.(to := ex.to + [env.parse(raw).value]) && r.reply == Some(OkReply())
    ensures r.outcome == Fail ==> r.ex == ex && r.reply == Some(Reply(ReplyInvalidMailboxSyntax, env.parse(raw).error))
  {
    match AddTo(ex, raw, env)
    case Err(e) => Processed(Some(Reply(ReplyInvalidMailboxSyntax, e)), Fail, Rcpt, ex)
    case Ok(ex') =>
      assert ex'.to == ex'.to[..|ex.to|] + [ex'.to[|ex.to|]];
      Processed(Some(OkReply()), Done, Rcpt, ex')
  }

  /** command_rset.go: always OK and done, whatever the line; sender and recipients are cleared, the domain kept. */
  function ProcessRset(line: string, ex: Exchange): (r: Processed)
    ensures r.outcome == Done && r.reply == Some(OkReply()) && r.cmd == Rset
    ensures r.ex.from == None && r.ex.to == []
    ensures r.ex == ex.(from := r.ex.from, to := r.ex.to)
  {
    Processed(Some(OkReply()), Done, Rset, Reset(ex))
  }

  /** command_noop.go: always OK and done; the line and the exchange play no part. */
  function ProcessNoop(line: string, ex: Exchange): (r: Processed)
    ensures r.outcome == Done && r.reply == Some(OkReply()) && r.ex == ex
  {
    Processed(Some(OkReply()), Done, Noop, ex)
  }

  /**
   * DATA, one line at a time: the first call answers 354 and asks for more;
   * each later line is added to the buffer with a '\n' after it, until a
   * line starting with '.' hands the buffer to `Body` and `Done` and answers OK.
   */
  function ProcessData(started: bool, buf: string, line: string, ex: Exchange): (r: Processed)
    ensures !started ==> r == Processed(Some(Reply(ReplyDataStart, DataStartText)), Continue, Data(true, buf), ex)
    ensures started && IsTerminator(line) ==>
      r.outcome == Done && r.reply == Some(OkReply()) && r.ex == Exchanges.Done(SetBody(ex, buf))
    ensures started && !IsTerminator(line) ==>
      r == Processed(None, Continue, Data(true, buf + line + "\n"), ex)
  {
    if !started then
      Processed(Some(Reply(ReplyDataStart, DataStartText)), Continue, Data(true, buf), ex)
    else if IsTerminator(line) then
      Processed(Some(OkReply()), Done, Data(true, buf), Exchanges.Done(SetBody(ex, buf)))
    else
      Processed(None, Continue, Data(true, buf + line + "\n"), ex)
  }

  /** `Process`: dispatch on the command. Only DATA ever answers `Continue`. */
  function Process(c: Command, line: string, ex: Exchange, env: Env): (r: Processed)
    ensures r.outcome == Continue ==> c.Data?
    ensures Verb(r.cmd) == Verb(c)
    ensures r.reply.Some? ==> r.reply.value.code in {ReplyOK, ReplyDataStart, ReplySyntaxError, ReplyInvalidMailboxSyntax}
  {
    match c
    case Helo => ProcessHelo(line, ex, env)
    case Mail(name) => ProcessMail(name, line, ex, env)
    case Rcpt => ProcessRcpt(line, ex, env)
    case Rset => ProcessRset(line, ex)
    case Noop => ProcessNoop(line, ex)
    case Data(started, buf) => ProcessData(started, buf, line, ex)
  }

  /**
   * What a command does when its argument is cut with util.go's `getSuffix`
   * as written: it runs, or the out-of-range slice panics, which in Go ends
   * the whole server because nothing recovers it.
   */
  datatype Attempt = Ran(p: Processed) | Panicked

  /**
   * command_helo.go over `getSuffix` as written: a line shorter than "HELO "
   * panics; any other line is taken as HELO whatever its first five bytes,
   * with the rest as the domain. The 501 syntax branch is never taken.
   */
  function ProcessHeloAsWritten(line: string, ex: Exchange, env: Env): (r: Attempt)
    ensures r.Panicked? <==> |line| < 5
    ensures r.Ran? ==> r.p == HeloWith(line[5..], ex, env)
  {
    match GetSuffixAsWritten(line, "HELO ")
    case OutOfRange => Panicked
    case NotFound => Ran(Processed(Some(Reply(ReplySyntaxError, "Syntax: HELO <domain>")), Fail, Helo, ex))
    case Found(domain) => Ran(HeloWith(domain, ex, env))
  }

  /** command_mail.go over `getSuffix` as written: the first `|name| + 6` bytes are skipped unread. */
  function ProcessMailAsWritten(name: string, line: string, ex: Exchange, env: Env): (r: Attempt)
    ensures r.Panicked? <==> |line| < |name| + 6
    ensures r.Ran? ==> r.p == MailWith(name, line[|name| + 6..], ex, env)
  {
    var prefix := name + " FROM:";
    match GetSuffixAsWritten(line, prefix)
    case OutOfRange => Panicked
    case NotFound => Ran(Processed(Some(Reply(ReplySyntaxError, "Syntax: " + prefix + " <address>")), Fail, Mail(name), ex))
    case Found(raw) => Ran(MailWith(name, raw, ex, env))
  }

  /** command_rcpt.go over `getSuffix` as written: the first 8 bytes are skipped unread. */
  function ProcessRcptAsWritten(line: string, ex: Exchange, env: Env): (r: Attempt)
    ensures r.Panicked? <==> |line| < 8
    ensures r.Ran? ==> r.p == RcptWith(line[8..], ex, env)
  {
    match GetSuffixAsWritten(line, "RCPT TO:")
    case OutOfRange => Panicked
    case NotFound => Ran(Processed(Some(Reply(ReplySyntaxError, "Syntax: RCPT TO: <address>")), Fail, Rcpt, ex))
    case Found(raw) => Ran(RcptWith(raw, ex, env))
  }

  /**
   * `Process` with the commands as written. Only HELO, MAIL (and its
   * aliases) and RCPT cut an argument, so only they can panic.
   */
  function ProcessAsWritten(c: Command, line: string, ex: Exchange, env: Env): (r: Attempt)
    ensures r.Panicked? ==> c == Helo || c.Mail? || c == Rcpt
    ensures !(c == Helo || c.Mail? || c == Rcpt) ==> r == Ran(Process(c, line, ex, env))
  {
    match c
    case Helo => ProcessHeloAsWritten(line, ex, env)
    case Mail(name) => ProcessMailAsWritten(name, line, ex, env)
    case Rcpt => ProcessRcptAsWritten(line, ex, env)
    case _ => Ran(Process(c, line, ex, env))
  }

  /**
   * On a line that starts with the command's prefix (in any case), the
   * commands as written do exactly what the corrected commands do; they
   * differ only on malformed lines.
   */
  lemma AsWrittenAgreesOnWellFormedLines(c: Command, line: string, ex: Exchange, env: Env)
    requires c == Helo ==> GetSuffix(line, "HELO ").Some?
    requires c.Mail? ==> GetSuffix(line, c.name + " FROM:").Some?
    requires c == Rcpt ==> GetSuffix(line, "RCPT TO:").Some?
    ensures ProcessAsWritten(c, line, ex, env) == Ran(Process(c, line, ex, env))
  {
    match c
    case Helo => GetSuffixAgreesOnMatch(line, "HELO ");
    case Mail(name) => GetSuffixAgreesOnMatch(line, name + " FROM:");
    case Rcpt => GetSuffixAgreesOnMatch(line, "RCPT TO:");
    case _ =>
  }

  /** The model answers 501 to "RCPT XY:<b@c>"; the code as written records the recipient. */
  lemma RcptWrongHeadAccepted(ex: Exchange, env: Env)
    requires env.parse("<b@c>").Ok?
    ensures ProcessRcpt("RCPT XY:<b@c>", ex, env)
         == Processed(Some(Reply(ReplySyntaxError, "Syntax: RCPT TO: <address>")), Fail, Rcpt, ex)
    ensures ProcessRcptAsWritten("RCPT XY:<b@c>", ex, env)
         == Ran(Processed(Some(OkReply()), Done, Rcpt, ex.(to := ex.to + [env.parse("<b@c>").value])))
  {
    assert "RCPT XY:<b@c>"[..8] == "RCPT XY:";
    assert Upper("RCPT XY:")[5] == 'X';
    assert "RCPT XY:<b@c>"[8..] == "<b@c>";
  }

  /** The model answers 501 to "HELOxa.test"; the code as written accepts "a.test" as the domain. */
  lemma HeloWrongHeadAccepted(ex: Exchange, env: Env)
    ensures ProcessHelo("HELOxa.test", ex, env)
         == Processed(Some(Reply(ReplySyntaxError, "Syntax: HELO <domain>")), Fail, Helo, ex)
    ensures ProcessHeloAsWritten("HELOxa.test", ex, env)
         == Ran(Processed(Some(Reply(ReplyOK, "HELO " + env.hostname)), Done, Helo, ex.(domain := "a.test")))
  {
    assert "HELOxa.test"[..5] == "HELOx";
    assert Upper("HELOx")[4] == 'X';
    assert "HELOxa.test"[5..] == "a.test";
    TrailingDotAccepted();
  }

  /** A bare verb with no argument makes each argument-taking command panic as written. */
  lemma BareVerbPanics(ex: Exchange, env: Env)
    ensures ProcessHeloAsWritten("HELO", ex, env) == Panicked
    ensures ProcessMailAsWritten("MAIL", "MAIL", ex, env) == Panicked
    ensures ProcessRcptAsWritten("RCPT", ex, env) == Panicked
  {
  }
}
