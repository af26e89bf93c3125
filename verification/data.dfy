/**
 * The body accumulation of the DATA command in command_data.go: input ends
 * at the first line whose first byte is '.', which is discarded; every line
 * before it is kept, each followed by '\n'. There is no dot-unstuffing, so
 * "..x" ends the input as well (section 4.5.2 of RFC 5321 would keep ".x").
 */
module DataBody {
  import opened Sequences
  import opened Wrappers

  /** A line that ends the body: its first byte is '.'. */
  predicate IsTerminator(line: string)
  {
    |line| > 0 && line[0] == '.'
  }

  /** The lines written into the buffer one after another, each followed by '\n'. */
  function WithNewlines(lines: seq<string>): (body: string)
    ensures |body| >= |lines|
  {
    if |lines| == 0 then "" else lines[0] + "\n" + WithNewlines(lines[1..])
  }

  lemma {:induction false} WithNewlinesAppend(lines: seq<string>, line: string)
    ensures WithNewlines(lines + [line]) == WithNewlines(lines) + line + "\n"
    decreases |lines|
  {
    if |lines| == 0 {
      assert lines + [line] == [line];
    } else {
      assert (lines + [line])[1..] == lines[1..] + [line];
      WithNewlinesAppend(lines[1..], line);
    }
  }

  /**
   * The read loop of command_data.go over the remaining input: the body and
   * the lines after the terminator, or `None` when no line terminates the body
   * (the source then never leaves its loop).
   */
  function CollectBody(lines: seq<string>): (r: Option<(string, seq<string>)>)
    ensures r.Some? ==> |r.value.1| < |lines|
  {
    if |lines| == 0 then None
    else if IsTerminator(lines[0]) then Some(("", lines[1..]))
    else
      match CollectBody(lines[1..])
      case None => None
      case Some((body, rest)) => Some((lines[0] + "\n" + body, rest))
  }

  /** With the first terminator at `i`, the body is the `i` lines before it and the input resumes after it. */
  lemma {:induction false} CollectBodyAtFirstTerminator(lines: seq<string>, i: nat)
    requires i < |lines| && IsTerminator(lines[i])
    requires forall j :: 0 <= j < i ==> !IsTerminator(lines[j])
    ensures CollectBody(lines) == Some((WithNewlines(lines[..i]), lines[i + 1..]))
    decreases i
  {
    if i == 0 {
      assert lines[..0] == [];
    } else {
      assert forall j :: 0 <= j < i - 1 ==> lines[1..][j] == lines[j + 1];
      CollectBodyAtFirstTerminator(lines[1..], i - 1);
      assert lines[..i][1..] == lines[1..][..i - 1];
      assert lines[1..][i..] == lines[i + 1..];
    }
  }

  /** Without any terminator the body never ends. */
  lemma {:induction false} CollectBodyWithoutTerminator(lines: seq<string>)
    requires forall j :: 0 <= j < |lines| ==> !IsTerminator(lines[j])
    ensures CollectBody(lines) == None
    decreases |lines|
  {
    if |lines| > 0 {
      assert forall j :: 0 <= j < |lines| - 1 ==> lines[1..][j] == lines[j + 1];
      CollectBodyWithoutTerminator(lines[1..]);
    }
  }

  /** A doubled leading dot still ends the body: no dot-unstuffing. */
  lemma DoubledDotTerminates(before: seq<string>, rest: seq<string>)
    requires forall j :: 0 <= j < |before| ==> !IsTerminator(before[j])
    ensures CollectBody(before + ["..hello"] + rest) == Some((WithNewlines(before), rest))
  {
    var lines := before + ["..hello"] + rest;
    assert forall j :: 0 <= j < |before| ==> lines[j] == before[j];
    CollectBodyAtFirstTerminator(lines, |before|);
    assert lines[..|before|] == before;
    assert lines[|before| + 1..] == rest;
  }

  /** An empty line does not end the body; it contributes a single '\n'. */
  lemma EmptyLineKept(rest: seq<string>)
    requires CollectBody(rest).Some?
    ensures CollectBody([""] + rest) == Some(("\n" + CollectBody(rest).value.0, CollectBody(rest).value.1))
  {
    var lines := [""] + rest;
    ConsParts("", rest);
    var body := CollectBody(rest).value.0;
    var after := CollectBody(rest).value.1;
    assert CollectBody(lines) == Some(("" + "\n" + body, after));
    EmptyThen("", "\n", body);
  }
}
