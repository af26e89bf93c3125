/**
 * The reply formatter `WriterChannel.Reply` of exchange.go, which writes a
 * reply in the multi-line form of section 4.2.1 of RFC 5321, and the older
 * single-line formatter of main.go. `ParseReply` reads the wire lines back.
 */
module Replies {
  import opened Wrappers
  import opened Strings

  /** A reply before rendering: a status code and a message that may hold '\n'. */
  datatype Reply = Reply(code: nat, msg: string)

  /** The status codes among a sequence of replies. */
  function Codes(rs: seq<Reply>): set<nat>
  {
    set i | 0 <= i < |rs| :: rs[i].code
  }

  /** Go's `%d` for a non-negative number. */
  function Decimal(n: nat): (r: string)
    ensures |r| >= 1
    ensures forall i :: 0 <= i < |r| ==> IsDigit(r[i])
  {
    var d := ('0' as int + n % 10) as char;
    if n < 10 then [d] else Decimal(n / 10) + [d]
  }

  /** The number a string of decimal digits denotes. */
  function DecimalValue(s: string): nat
    requires forall i :: 0 <= i < |s| ==> IsDigit(s[i])
  {
    if |s| == 0 then 0
    else
      assert IsDigit(s[|s| - 1]);
      DecimalValue(s[..|s| - 1]) * 10 + (s[|s| - 1] as int - '0' as int)
  }

  lemma {:induction false} DecimalRoundTrip(n: nat)
    ensures DecimalValue(Decimal(n)) == n
  {
    var r := Decimal(n);
    if n >= 10 {
      DecimalRoundTrip(n / 10);
      assert r[..|r| - 1] == Decimal(n / 10);
    }
  }

  /** Every three-digit status code renders as exactly three digits. */
  lemma ThreeDigitCode(code: nat)
    requires 100 <= code <= 999
    ensures |Decimal(code)| == 3
  {
    assert |Decimal(code / 100)| == 1;
  }

  /** One wire line: the code, a separator ('-' or ' '), the text and CRLF. */
  function Line(code: nat, sep: char, text: string): string
  {
    Decimal(code) + [sep] + text + "\r\n"
  }

  /** The lines for the pieces of a message: '-' after the code on all but the last, ' ' on the last. */
  function RenderParts(code: nat, parts: seq<string>): (lines: seq<string>)
    requires |parts| >= 1
    ensures |lines| == |parts|
  {
    if |parts| == 1 then [Line(code, ' ', parts[0])]
    else [Line(code, '-', parts[0])] + RenderParts(code, parts[1..])
  }

  /** exchange.go's `WriterChannel.Reply`: one line per '\n'-separated piece of `msg`. */
  function Render(code: nat, msg: string): (lines: seq<string>)
    ensures |lines| == Count(msg, '\n') + 1
    ensures forall i :: 0 <= i < |lines| ==>
      HasPrefix(lines[i], Decimal(code) + [if i < |lines| - 1 then '-' else ' '])
    ensures forall i :: 0 <= i < |lines| ==>
      |lines[i]| >= 2 && lines[i][|lines[i]| - 2..] == "\r\n"
  {
    var parts := Split(msg, '\n');
    RenderPartsShape(code, parts);
    RenderParts(code, parts)
  }

  lemma {:induction false} RenderPartsShape(code: nat, parts: seq<string>)
    requires |parts| >= 1
    ensures forall i :: 0 <= i < |parts| ==>
      RenderParts(code, parts)[i] == Line(code, if i < |parts| - 1 then '-' else ' ', parts[i])
    decreases |parts|
  {
    if |parts| > 1 {
      RenderPartsShape(code, parts[1..]);
      var lines := RenderParts(code, parts);
      forall i | 1 <= i < |parts|
        ensures lines[i] == Line(code, if i < |parts| - 1 then '-' else ' ', parts[i])
      {
        assert lines[i] == RenderParts(code, parts[1..])[i - 1];
        assert parts[1..][i - 1] == parts[i];
      }
    }
  }

  /** A message without '\n' is rendered as the single line `<code> <msg>` CRLF. */
  lemma SingleLineReply(code: nat, msg: string)
    requires '\n' !in msg
    ensures Render(code, msg) == [Decimal(code) + " " + msg + "\r\n"]
  {
    SplitNoSep(msg, '\n');
  }

  /** The older formatter of main.go: `<code> <msg>` and a bare LF, with no splitting. */
  function RenderLegacy(code: nat, msg: string): (line: string)
    ensures |line| >= 1 && line[|line| - 1] == '\n'
    ensures '\n' !in msg ==> Render(code, msg) == [line[..|line| - 1] + "\r\n"]
  {
    var line := Decimal(code) + " " + msg + "\n";
    if '\n' in msg then line
    else
      SingleLineReply(code, msg);
      assert line[..|line| - 1] == Decimal(code) + " " + msg;
      line
  }

  /** Reads one wire line back into its code, separator and text. */
  function ParseLine(line: string): Option<(nat, char, string)>
  {
    if |line| >= 6 && IsDigit(line[0]) && IsDigit(line[1]) && IsDigit(line[2])
       && line[|line| - 2..] == "\r\n"
    then Some((DecimalValue(line[..3]), line[3], line[4..|line| - 2]))
    else None
  }

  /** Reads the lines of one reply back: a shared code, '-' continuations, a final ' ' line. */
  function ParseReply(lines: seq<string>): Option<Reply>
  {
    if |lines| == 0 then None
    else match ParseLine(lines[0])
      case None => None
      case Some((code, sep, text)) =>
        if |lines| == 1 then (if sep == ' ' then Some(Reply(code, text)) else None)
        else if sep != '-' then None
        else match ParseReply(lines[1..])
          case None => None
          case Some(rest) => if rest.code == code then Some(Reply(code, text + "\n" + rest.msg)) else None
  }

  lemma ParseLineOfLine(code: nat, sep: char, text: string)
    requires 100 <= code <= 999
    ensures ParseLine(Line(code, sep, text)) == Some((code, sep, text))
  {
    ThreeDigitCode(code);
    DecimalRoundTrip(code);
    var line := Line(code, sep, text);
    assert line[..3] == Decimal(code);
    assert line[4..|line| - 2] == text;
  }

  lemma {:induction false} ParseRenderParts(code: nat, parts: seq<string>)
    requires 100 <= code <= 999
    requires |parts| >= 1
    ensures ParseReply(RenderParts(code, parts)) == Some(Reply(code, Join(parts, '\n')))
    decreases |parts|
  {
    var lines := RenderParts(code, parts);
    if |parts| == 1 {
      ParseLineOfLine(code, ' ', parts[0]);
    } else {
      ParseLineOfLine(code, '-', parts[0]);
      ParseRenderParts(code, parts[1..]);
      assert lines[1..] == RenderParts(code, parts[1..]);
    }
  }

  /** Round trip: reading back the rendered lines recovers the code and the whole message. */
  lemma ParseRender(code: nat, msg: string)
    requires 100 <= code <= 999
    ensures ParseReply(Render(code, msg)) == Some(Reply(code, msg))
  {
    ParseRenderParts(code, Split(msg, '\n'));
    JoinSplit(msg, '\n');
  }
}
