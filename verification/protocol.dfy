/** The reply codes and verb names of protocol.go (main.go declares the same values). */
module Protocol {

  const ReplyServiceReady: nat := 220
  const ReplyServiceClosing: nat := 221
  const ReplyOK: nat := 250
  const ReplyDataStart: nat := 354
  const ReplyUnknown: nat := 500
  const ReplySyntaxError: nat := 501
  const ReplyNotImplemented: nat := 502
  const ReplyBadSequence: nat := 503
  const ReplyInvalidMailboxSyntax: nat := 553

  const CommandData := "DATA"
  const CommandEhlo := "EHLO"
  const CommandExpn := "EXPN"
  const CommandHelo := "HELO"
  const CommandHelp := "HELP"
  const CommandMail := "MAIL"
  const CommandNoop := "NOOP"
  const CommandQuit := "QUIT"
  const CommandRcpt := "RCPT"
  const CommandRset := "RSET"
  const CommandSaml := "SAML"
  const CommandSend := "SEND"
  const CommandSoml := "SOML"
  const CommandVrfy := "VRFY"

  /** The verbs that open a mail transaction. */
  const CommandsMail: seq<string> := [CommandMail, CommandSaml, CommandSend, CommandSoml]
}
