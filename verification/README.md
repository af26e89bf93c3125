# smtpd command engine in Dafny

A model of the server side of jcomo/smtpd, a small SMTP receiver written in
Go, with proofs about it. The model covers the pure core of the server:

- the domain-name check used by HELO;
- the string helpers;
- the multi-line reply formatter;
- the transaction record `Exchange`;
- the per-verb commands and their registry;
- the DATA body reader;
- the session loop, in both revisions the repository carries.

The newer loop is `protocolLoop` in protocol_loop.go, with the command objects of command_*.go and the
`defaultCommands` registry. The older loop is `run` in main.go and its twin `handle` in handle.go, with
main.go's `Command` table.

Every loop is a pure step from a state and one input line to the next state,
the replies written, and whether the connection ends. The collaborators the
code cannot see are parameters, fields of the `Env` record:

- the address parser of `net/mail`;
- `isIp`;
- the server's hostname.

Delivery through the `Mailer` is recorded: every `Done` appends the message
(sender, recipients, body) to `Exchange.sent`.

Modules, one concept each:

| module | file | models |
|---|---|---|
| `Wrappers` | wrappers.dfy | `Option`, `Result` |
| `Strings` | strings.dfy | ASCII upper-casing, `strings.Split`/join |
| `Util` | util.dfy | `safeSubstring`, `contains`, both `getSuffix` |
| `DomainName` | domain.dfy | `isDomainName` as a loop, and its rules byte by byte |
| `DomainLabels` | domain_labels.dfy | the same rules read label by label |
| `Protocol` | protocol.dfy | reply codes, verbs, `CommandsMail` |
| `Replies` | reply.dfy | `WriterChannel.Reply` (multi-line and single-line) and a reader for it |
| `Exchanges` | exchange.dfy | `Exchange` and its methods |
| `DataBody` | data.dfy | the DATA body reader |
| `Commands` | commands.dfy | HELO, MAIL/SEND/SAML/SOML, RCPT, RSET, NOOP, DATA commands, and HELO, MAIL and RCPT over `getSuffix` as written |
| `Registry` | registry.dfy | factories, `defaultCommands`, `readCommandName` |
| `ProtocolLoop` | loop.dfy | `protocolLoop` |
| `LoopProperties` | loop_props.dfy | sequencing properties of `protocolLoop` |
| `LegacyLoop` | legacy.dfy | `run` and `handle` with main.go's commands |
| `LegacyProperties` | legacy_props.dfy | their properties, and DATA in both revisions |
| `Scenarios` | scenarios.dfy | the conversations of integration_test.go |
| `Sequences` | sequences.dfy | regroupings of concatenations that the loop proofs use |

## How the revisions are reconciled

The files come from several revisions of the program:

- command.go declares `Process(line, ex) (bool, error)`, but the command files return `(*reply, bool)`.
- command_data.go still uses main.go's `Command{Run}` struct.

Here `Process` returns the reply it writes, an outcome, the command (which
carries DATA's buffer) and the exchange. The outcome is one of:

- `Fail`: a command's `false`, which is the error path of `processCommand`; `next` stays.
- `Done`: a command's `true`.
- `Continue`: DATA still collecting its body, where the loop keeps feeding it lines.

In the newer loop DATA takes the body one line at a time. In the older loop it reads the lines itself.
`LoopProperties.DataStreamMatchesBatch` and `LegacyProperties.DataAgreesAcrossRevisions` prove that the
two give the same body, exchange, successors and reply codes.

In three places the code departs from RFC 5321. The model follows the code:

- Section 4.5.2 of RFC 5321 asks the receiver to drop the leading dot of a line that starts with
  one. This code does not: DATA ends at the first line that starts with `.`, so `..x` also ends
  the body.
- Section 4.1.1.5 of RFC 5321 lets a client send RSET at any time. Here RSET right after HELO is
  refused with 503, because HELO's successors are `[MAIL]` only.
- Section 6.1 of RFC 5321 makes the receiver responsible for a message once it has answered 250 to
  it. Here the error `Mailer.Send` returns is ignored and OK is answered all the same.

In these places the model does not follow the code; each has its line under "## Left out":

- util.go's `getSuffix` never reports a mismatch and panics on a line shorter than the prefix (see
  "## Findings"). Both loops that use it, `protocolLoop` and `handle`, run HELO, MAIL and RCPT over
  the intended, corrected helper. The commands as written are modelled beside them
  (`Commands.ProcessAsWritten`), and the lemmas after it show where the two differ.
- command_data.go's second scanner can miss lines the loop's scanner already buffered; the model
  lets DATA read the lines that follow.
- In the newer loop DATA takes the body line by line, a reconstruction of command_data.go's reader,
  and input that ends inside DATA ends the session silently where the reader never returns.
- `handle` only builds next to exchange.go and util.go, yet runs main.go's command table. The model
  pairs main.go's table with exchange.go's `Exchange.Domain` and util.go's `getSuffix`.

The two revisions also differ in what they answer:

- main.go's HELO replies `250 HELO <client domain>`; command_helo.go replies `250 HELO <server hostname>`.
- main.go's prefixes end in a space (`"MAIL FROM: "`, `"RCPT TO: "`); the command files use
  `"<name> FROM:"` and `"RCPT TO:"`.
- main.go's RSET and NOOP answer "reset" and "noop".
- `run` does not upper-case the verb or the argument prefix; `handle` and `protocolLoop` fold both.

## Model

| member | source | states |
|---|---|---|
| Util.SafeSubstring | util.go:31-37 | the result is the prefix of the string of length min(len, n) |
| Util.Contains | util.go:21-29 | true exactly when some element equals the string, case-sensitively |
| Util.GetSuffixAsWritten | util.go:7-19 | as written: never reports a mismatch; slices out of range exactly when the line is shorter than the prefix; otherwise the result is the line with its first len(prefix) bytes dropped |
| Util.GetSuffixAcceptsWrongPrefix | util.go:8-14 | a line whose first bytes differ from the prefix ("RCPT XY:") is still accepted |
| Util.GetSuffixShortLinePanics | util.go:9-17 | the bare line "HELO" against "HELO " reaches the out-of-range slice |
| Util.GetSuffix | util.go:7-19 | corrected: a match exactly when the line's first len(prefix) bytes equal the prefix ignoring ASCII case; the result and the matched head rebuild the line |
| Util.GetSuffixRoundTrip | util.go:7-19 | any case variant of the prefix followed by a rest yields exactly that rest, case preserved |
| Util.GetSuffixAgreesOnMatch | util.go:17 | where the corrected helper matches, the code as written returns the same suffix |
| Util.GetSuffixExact | main.go:183-189 | found exactly when the prefix is a prefix of the line; then prefix + result is the line, otherwise the result is empty |
| Util.ExactImpliesFolded | main.go:183-189 | every case-sensitive match is also a case-insensitive match with the same suffix |
| Strings.Split | exchange.go:26 | the message splits into one more piece than it has separators, none holding a separator |
| Strings.JoinSplit | exchange.go:26 | joining the pieces back with the separator gives the original message |
| Strings.SplitJoin | exchange.go:26 | splitting pieces free of the separator after joining them gives the pieces back |
| DomainName.IsDomainName | main.go:338-388 | the one-pass scan returns true exactly for the names the byte rules `ValidDomainName` accept |
| DomainName.NumericNameRejected | main.go:353-387 | a name made of digits and dots only, such as 127.0.0.1, is refused |
| DomainName.TrailingDotAccepted | main.go:372-386 | "a.test" and "a.test." are both accepted |
| DomainLabels.ValidDomainNameByLabels | main.go:338-388 | the byte rules accept exactly the names of 1-253 bytes, or 254 ending in a dot, that contain a letter or '_' and whose dot-separated labels (after an optional trailing dot) are 1-63 letters, digits or dashes, neither starting nor ending with a dash |
| DomainLabels.LabelsScan | main.go:355-386 | for a name without trailing dot, all labels well formed is equivalent to the scan's per-byte, last-byte and last-label conditions |
| DomainLabels.LongestLabel | main.go:377-384 | a 63-byte label is well formed and a 64-byte one is not |
| Replies.Render | exchange.go:25-39 | one wire line per newline-separated piece (newlines + 1), each starting with the code and '-' except the last which uses ' ', each ending in CRLF |
| Replies.RenderPartsShape | exchange.go:28-36 | line i is the code, '-' or ' ' (last only), piece i and CRLF |
| Replies.SingleLineReply | exchange.go:26-36 | a message without newline is the single line "<code> <msg>\r\n" |
| Replies.ParseRender | exchange.go:25-39 | reading the rendered lines back gives the same code and message, for every three-digit code |
| Replies.DecimalRoundTrip | exchange.go:36 | the decimal text of a code reads back as the code |
| Replies.ThreeDigitCode | protocol.go:3-13 | every reply code from 100 to 999 prints as exactly three digits |
| Replies.RenderLegacy | main.go:320-323 | the older formatter writes one line ending in LF; for a message without newline it carries the same text as the multi-line formatter's single line |
| Exchanges.SetDomain | exchange.go:63-70 | accepted exactly when the name is a valid domain name or an IP; then only the domain changes; otherwise "invalid domain" |
| Exchanges.SetDomainNameOnly | main.go:235-242 | accepted exactly when the name is a valid domain name; then only the domain changes; otherwise "invalid domain" |
| Exchanges.NameOnlyRefinesDomain | exchange.go:63-70 | whatever the older check accepts, the newer one accepts with the same result |
| Exchanges.SetFrom | exchange.go:72-80 | a parse error is returned as is; on success the sender is the parsed address and nothing else changes |
| Exchanges.AddTo | exchange.go:82-95 | a parse error is returned as is; on success exactly one address is appended at the end, earlier recipients kept in order, nothing else changes |
| Exchanges.AddToTwiceKeepsOrder | exchange.go:82-95 | two accepted recipients end up after the earlier ones, in the order given, duplicates kept |
| Exchanges.SetBody | exchange.go:97-99 | the body is set and nothing else changes |
| Exchanges.Reset | exchange.go:111-114 | sender and recipients are cleared; domain, body and delivered mail are kept |
| Exchanges.Done | exchange.go:101-109 | exactly one message with the current sender, recipients and body is delivered, then the transaction is reset |
| Exchanges.DoneThenReset | exchange.go:101-114 | after Done the transaction is already reset, and one more message has been delivered |
| DataBody.CollectBodyAtFirstTerminator | command_data.go:19-30 | the body ends at the first line starting with '.', which is dropped; the body is every earlier line followed by a newline; the input after it is left unread |
| DataBody.CollectBodyWithoutTerminator | command_data.go:19-28 | without a line starting with '.', no body is ever produced |
| DataBody.DoubledDotTerminates | command_data.go:22-24 | "..hello" ends the body: there is no dot-unstuffing |
| DataBody.EmptyLineKept | command_data.go:22-27 | an empty line does not end the body and contributes one newline |
| DataBody.WithNewlinesAppend | command_data.go:26-27 | one more body line adds that line and a newline at the end |
| Commands.Next | command_helo.go:5-7 | no command lists HELO among its successors |
| Commands.StatelessIsNoop | protocol_loop.go:90-92 | the commands with no successor list (stateless) are exactly NOOP |
| Commands.ProcessHelo | command_helo.go:9-24 | no "HELO " prefix: 501 syntax, nothing changes; otherwise done exactly when the domain is accepted, setting it and answering 250 "HELO " + the server's hostname; otherwise 501 "invalid domain", exchange unchanged |
| Commands.ProcessMail | command_mail.go:17-34 | no "<name> FROM:" prefix: 501 with that prefix in the text; otherwise the transaction is cleared first, done exactly when the address parses, setting the sender and answering OK; otherwise 553 with the parser's text and no sender |
| Commands.ProcessRcpt | command_rcpt.go:9-23 | no "RCPT TO:" prefix: 501; otherwise done exactly when the address parses, appending it and answering OK; otherwise 553 with the parser's text, exchange unchanged |
| Commands.HeloWith | command_helo.go:16-23 | with the domain cut from the line: done exactly when the domain is accepted, then recorded and answered 250 "HELO " + the server's hostname; otherwise 501 "invalid domain", exchange unchanged |
| Commands.MailWith | command_mail.go:26-33 | with the address cut from the line: sender and recipients cleared first; done exactly when the address parses, then that sender and OK; otherwise 553 with the parser's text and no sender |
| Commands.RcptWith | command_rcpt.go:16-22 | with the address cut from the line: done exactly when it parses, then appended at the end and OK; otherwise 553 with the parser's text, exchange unchanged |
| Commands.ProcessRset | command_rset.go:9-12 | always done with OK, the command still RSET; sender and recipients cleared, and nothing else of the exchange (domain, body, delivered mail) changes |
| Commands.ProcessNoop | command_noop.go:9-11 | always done with OK, whatever the line, and the exchange is not touched |
| Commands.ProcessData | command_data.go:13-35 | first 354 before any body line; then each non-terminator line is buffered with a newline and not answered; the terminator delivers the buffered body and answers OK |
| Commands.Process | command.go:3-6 | only DATA ever continues; the command stays the same verb; replies are 250, 354, 501 or 553 |
| Commands.ProcessHeloAsWritten | command_helo.go:9-24 | over `getSuffix` as written: panics exactly on a line shorter than five bytes; any other line runs HELO on the line minus its first five bytes, whatever they are |
| Commands.ProcessMailAsWritten | command_mail.go:17-34 | over `getSuffix` as written: panics exactly on a line shorter than "<name> FROM:"; any other line runs MAIL on the rest after that many bytes, whatever they are |
| Commands.ProcessRcptAsWritten | command_rcpt.go:9-23 | over `getSuffix` as written: panics exactly on a line shorter than eight bytes; any other line runs RCPT on the rest after the first eight bytes |
| Commands.ProcessAsWritten | util.go:7-19 | only HELO, MAIL and its aliases, and RCPT can panic; every other command behaves as in the corrected model |
| Commands.AsWrittenAgreesOnWellFormedLines | util.go:7-19 | on a line that starts with the command's prefix in any case, the commands as written do exactly what the corrected ones do |
| Commands.RcptWrongHeadAccepted | command_rcpt.go:10-14 | "RCPT XY:<b@c>": the corrected model answers 501; as written the recipient is recorded with OK |
| Commands.HeloWrongHeadAccepted | command_helo.go:10-14 | "HELOxa.test": the corrected model answers 501; as written "a.test" becomes the domain with 250 |
| Commands.BareVerbPanics | util.go:17 | a bare "HELO", "MAIL" or "RCPT" line panics as written |
| Registry.InstanceFactory | command.go:20-26 | every `New` returns the one shared instance |
| Registry.FactoryOf | command.go:28-30 | every `New` returns what the constructor builds |
| Registry.ReadCommandName | protocol_loop.go:94-96 | the verb is the first four bytes (or all, if shorter), upper-cased: it equals the line's head ignoring case and has no lower-case letter left |
| Registry.ReadsVerb | protocol_loop.go:94-96 | a line starting with an upper-case four-letter verb is read as that verb |
| Registry.DefaultCommandsWellFormed | protocol.go:39-55 | every key reads back as itself, every implemented verb builds a command of that verb, and QUIT has no entry |
| Registry.NotImplementedVerbs | protocol.go:42-53 | the registered verbs without a factory are exactly EHLO, EXPN, HELP and VRFY |
| Registry.RegistryFactories | protocol.go:41-52 | MAIL, SEND, SAML and SOML each build a mail command named by their own verb; DATA alone gets a fresh instance per lookup, starting with an empty buffer |
| ProtocolLoop.ProcessCommand | protocol_loop.go:69-84 | the loop never stops here; the command's reply and exchange are taken over; it keeps the command exactly when DATA continues; successors change only on success of a command that has them |
| ProtocolLoop.Serve | protocol_loop.go:17-21 | the 220 greeting is written before any line is read |
| LoopProperties.LoopReplies | protocol_loop.go:36-62 | the session stops exactly at QUIT while waiting; 500 exactly for a verb not in the registry; 502 exactly for one without factory; 503 exactly for one that may not run now; none of these changes the session |
| LoopProperties.QuitEndsInput | protocol_loop.go:41-45 | QUIT while waiting answers 221 and ends the session without reading further |
| LoopProperties.NoopChangesNothing | command_noop.go:5-11 | NOOP in any waiting state answers OK and leaves the session as it was |
| LoopProperties.FirstCommandMustBeHelo | server.go:42-47 | in the initial state every implemented verb but HELO and NOOP is refused with 503 and changes nothing |
| LoopProperties.StepAndHelo | protocol_loop.go:77-83 | no step makes HELO allowed again, and a step that accepts HELO needed it allowed and disallows it |
| LoopProperties.HeloAtMostOnce | protocol_loop.go:23-66 | along any input at most one HELO is accepted, and none once HELO is no longer allowed |
| LoopProperties.HeloOncePerConnection | server.go:42-49 | a connection accepts HELO at most once |
| LoopProperties.RsetStartsOver | command_rset.go:5-12 | an allowed RSET answers OK, clears the transaction and allows MAIL next |
| LoopProperties.RsetRightAfterHeloRefused | command_helo.go:5-7 | right after HELO, RSET is refused with 503 |
| LoopProperties.QuitInsideDataIsBody | protocol_loop.go:36-39 | inside DATA a QUIT line is body content and does not end the session |
| LoopProperties.DataStreamMatchesBatch | command_data.go:19-34 | feeding the body line by line ends where the one-shot reader ends, with its body delivered, one OK and MAIL allowed next, and then continues with the rest |
| LoopProperties.BufferedLine | command_data.go:22-27 | inside DATA a line that is not the terminator is buffered with a newline, answered with nothing, and the loop reads on in DATA; the collected body grows by that line |
| LoopProperties.TerminatorLine | command_data.go:22-34 | inside DATA the terminator ends the body: OK, the buffered body delivered once, MAIL allowed next, and the loop waits for the following line |
| LoopProperties.DataTransaction | command_data.go:13-35 | an allowed DATA answers 354, then OK after the terminator, delivering exactly the collected body |
| LegacyLoop.Argument | main.go:183-189 | the argument is cut exactly when the line starts with the prefix, exactly for `run` and ignoring case for `handle` (util.go's `getSuffix`, corrected); the prefix followed by the argument is the line |
| LegacyLoop.RunHelo | main.go:54-75 | no "HELO " prefix (exact for `run`, any case for `handle`): not done, 501 "Syntax: HELO <domain>", nothing changes; otherwise done exactly when the domain is accepted, then set and answered "HELO " + the client's domain; otherwise 501 "invalid domain" |
| LegacyLoop.RunMail | main.go:77-100 | no "MAIL FROM: " prefix (exact for `run`, any case for `handle`): 501 "Syntax: MAIL FROM: <address>", nothing changes; otherwise recipients cleared, done exactly when the address parses, setting the sender and answering 250 "OK"; otherwise 553 with the parser's text |
| LegacyLoop.RunRcpt | main.go:102-125 | done exactly when the line has the "RCPT TO: " prefix (exact for `run`, any case for `handle`) and the address parses; then exactly that recipient is appended and 250 "OK" answered; otherwise nothing changes, with 501 "Syntax: RCPT TO: <address>" when the prefix is missing and 553 with the parser's text when the address does not parse |
| LegacyLoop.RunData | main.go:153-181 | 354 first; done exactly when a terminator arrives, then exactly 354 and 250 "OK" are answered, the collected body is stored and delivered once, the transaction reset, and reading resumes after the terminator; otherwise it never returns |
| LegacyLoop.RunCommand | main.go:194-211 | commands other than DATA answer once and read nothing more; a success ends with 250; only HELO answers "250 HELO ..." |
| LegacyLoop.Session | handle.go:16-20 | the 220 greeting is written before any line is read |
| LegacyProperties.LegacyLoopReplies | main.go:407-434 | 221 exactly for QUIT (ending the session); 502 exactly for a verb on the not-implemented list, checked before the table; 500 for a verb missing from the table; 503 for a stateful verb not allowed now; none of these changes anything |
| LegacyProperties.LegacyQuitEndsInput | handle.go:36-39 | QUIT answers 221 and the rest of the input is not read |
| LegacyProperties.LegacyNoopKeepsNext | main.go:139-146 | NOOP runs in any state, answers "noop" and keeps the successors and the exchange |
| LegacyProperties.LegacyStepAndHelo | main.go:426-438 | a step accepts HELO at most once, only when it was allowed, and then disallows it; no step allows it again |
| LegacyProperties.LegacyHeloAtMostOnce | handle.go:22-65 | along any input at most one HELO is accepted, and none once HELO is no longer allowed |
| LegacyProperties.LegacyHeloOncePerConnection | main.go:390-440 | a connection to either older loop accepts HELO at most once |
| LegacyProperties.LowerCaseHelo | main.go:407-424 | "helo a.test" is an unknown command (500) to `run`, which does not fold case; `handle` folds the verb and, through util.go's `getSuffix`, the argument prefix, so it greets with 250, records the domain and allows MAIL next |
| LegacyProperties.DataWithoutTerminatorHangs | main.go:164-173 | an allowed DATA whose input never holds a terminator never returns |
| LegacyProperties.DataRunsReader | handle.go:57-64 | an allowed DATA hands the rest of the input to the body reader, takes on its replies, exchange and unread input, and allows MAIL next exactly when the reader returns |
| LegacyProperties.LegacyDataStep | handle.go:57-64 | an allowed, terminated DATA answers 354 and OK, delivers the body once, allows MAIL next and resumes after the terminator |
| LegacyProperties.DataAgreesAcrossRevisions | command_data.go:8-36 | the newer loop fed the same lines ends with the exchange and successors of the older loop's DATA and with the same reply codes |
| Scenarios.TestingIsDomainName | integration_test.go:20 | "testing" is a valid domain name |
| Scenarios.HeloFromStart | integration_test.go:20-23 | "HELO testing" in the initial state answers 250 "HELO " + hostname, records the domain and allows MAIL next |
| Scenarios.DefaultDeliveryVerbs | protocol.go:41-48 | the default registry builds MAIL, RCPT and DATA commands as a delivery needs |
| Scenarios.SendMail | integration_test.go:17-62 | a sender, two recipients, a one-line body and QUIT are answered OK, OK, OK, 354, OK, 221, and exactly one message with that sender, both recipients in order and that body is delivered |
| Scenarios.MailError | integration_test.go:78-85 | a sender the parser refuses gets 553 with the parser's text and leaves no sender |
| Scenarios.RcptError | integration_test.go:87-95 | a recipient the parser refuses gets 553 and changes nothing |
| Scenarios.SequenceError | integration_test.go:97-102 | DATA as the first command gets 503 after the greeting |
| Scenarios.NotImplementedError | integration_test.go:104-109 | VRFY gets 502 and changes nothing |

## Left out

- Sockets, console I/O, the goroutine per connection, CLI flags and `os.Hostname` are not modelled.
  Input is a sequence of lines and output a sequence of replies.
- The framing and token limits of `bufio.Scanner` are not modelled.
- command_data.go opens a second scanner on the same reader, which can miss lines the outer scanner
  already buffered. The model lets DATA read the lines that follow.
- The address parser, `isIp` and the hostname are uninterpreted fields of `Env`, as are the parser's
  error texts.
- The unshown `reply`, `newReply`, `ok` and `newDataCommand` are left out. `ok()` is a 250 reply with
  the text "OK". `newDataCommand` is a DATA command with an empty buffer.
- `Mailer.Send` is an appended record; its error is ignored, as in the code. `DebugMailer`'s printing
  is left out.
- Logging is left out.
- `strings.ToUpper` is modelled for ASCII only; Unicode case mapping is left out.
- Go's nil and empty slices are not told apart, except that a nil `Next()` is `None`.
- Factories are immutable values here. That `New` does not change the factory holds by construction,
  so no member states it.
- Sharing one instance between connections is not modelled. `instanceFactory` returns the same value
  every time, and commands other than DATA carry no state.
- `handle` runs main.go's command table, the only `Command` table shown. main.go and util.go both
  define `getSuffix`, and handle.go builds exchange.go's `WriterChannel`, so `handle` only builds
  beside util.go: the model gives it util.go's case-folding `getSuffix` and exchange.go's
  `Exchange.Domain`, with main.go's table.
- LegacyLoop.RunHelo: for `handle`, runs over the corrected `getSuffix`, as `Commands.ProcessHelo`
  does; a wrong five-byte head or a bare "HELO" is answered 501 here, where util.go as written takes
  it or panics.
- LegacyLoop.RunMail: for `handle`, runs over the corrected `getSuffix`; util.go as written skips any
  head as long as "MAIL FROM: " or panics on a shorter line.
- LegacyLoop.RunRcpt: for `handle`, runs over the corrected `getSuffix`; util.go as written skips any
  head as long as "RCPT TO: " or panics on a shorter line.
- Scenarios.SendMail: the body is the single line "hi", not the test's multi-line message.
- Scenarios.SendMail: it holds for any registry that maps MAIL, RCPT and DATA as `defaultCommands`
  does, which `Scenarios.DefaultDeliveryVerbs` shows the default registry does.
- Commands.ProcessHelo: the hostname is an abstract string, so the reply text is stated only up to it.
- Commands.ProcessHelo: runs over the corrected `getSuffix`, so it answers 501 where the code as written
  takes any five-byte head as "HELO " ("HELOxa.test" sets "a.test") or panics on a bare "HELO".
  `Commands.ProcessHeloAsWritten` is what the code does. The loop deliberately follows the intended
  prefix test instead: that is also why it answers 501 to wrong heads that would not panic, and a
  panic on a short line would end the whole server.
- Commands.ProcessMail: runs over the corrected `getSuffix`, so it answers 501 where the code as written
  skips any head as long as "<name> FROM:" or panics on a shorter line. `Commands.ProcessMailAsWritten`
  is what the code does; the loop follows the intended prefix test, as for HELO.
- Commands.ProcessRcpt: runs over the corrected `getSuffix`, so it answers 501 where the code as written
  accepts "RCPT XY:<b@c>" or panics on a bare "RCPT". `Commands.ProcessRcptAsWritten` is what the code
  does; the loop follows the intended prefix test, as for HELO.
- ProtocolLoop.Run: command_data.go still reads the body itself with the older `Command{Run}` shape, so
  the newer loop's line-by-line DATA is a reconstruction, proved equal to that reader where a
  terminator arrives. At the end of input inside DATA, the model's loop ends silently with no body and
  no reply, where command_data.go's unchecked `Scan` loop never returns (as
  `LegacyProperties.DataWithoutTerminatorHangs` shows for the reader itself).

## Findings

| source | as written | input that shows it | evidently intended | confidence | as-written member | corrected member |
|---|---|---|---|---|---|---|
| util.go:8-14 | compares the upper-cased line with the upper-cased first len(prefix) bytes of the line itself, so the prefix's content is never consulted | `getSuffix("RCPT XY:<b@c>", "RCPT TO:")` returns `("<b@c>", true)` | compare the line's head with the upper-cased prefix | high; not executed | Util.GetSuffixAcceptsWrongPrefix | Util.GetSuffixRoundTrip |
| util.go:9-17 | a line shorter than the prefix passes the check and `s[lenPre:]` slices out of range, a run-time panic | `getSuffix("HELO", "HELO ")` | report no match | high; not executed | Util.GetSuffixShortLinePanics | Util.GetSuffix |
