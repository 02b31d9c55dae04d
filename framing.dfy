/**
 * Newline framing of a client's byte stream (server/server_main.py:109-114):
 * the server appends what it received to the client's buffer and then splits
 * off one line at a time at the first newline byte, keeping the unterminated
 * tail for the next tick. The functions here say what that loop produces.
 */
module Framing {
  newtype byte = x: int | 0 <= x < 256

  /** The byte the framing splits on, "\n". */
  const Newline: byte := 10

  /** The index of the first newline in `b` at or after `i`, or |b| when there is none. */
  function FirstNewlineFrom(b: seq<byte>, i: nat): (k: nat)
    requires i <= |b|
    ensures i <= k <= |b|
    ensures k < |b| ==> b[k] == Newline
    ensures forall j :: i <= j < k ==> b[j] != Newline
    decreases |b| - i
  {
    if i == |b| || b[i] == Newline then i else FirstNewlineFrom(b, i + 1)
  }

  /** The index of the first newline in `b`, or |b| when it has none. */
  function FirstNewline(b: seq<byte>): (k: nat)
    ensures k <= |b|
    ensures k < |b| ==> b[k] == Newline
    ensures forall i :: 0 <= i < k ==> b[i] != Newline
  {
    FirstNewlineFrom(b, 0)
  }

  /** The complete lines in `b`, without their newlines, in order. */
  function Lines(b: seq<byte>): seq<seq<byte>>
    decreases |b|
  {
    var k := FirstNewline(b);
    if k == |b| then [] else [b[..k]] + Lines(b[k + 1..])
  }

  /** What is left of `b` after every complete line has been split off. */
  function Remainder(b: seq<byte>): seq<byte>
    decreases |b|
  {
    var k := FirstNewline(b);
    if k == |b| then b else Remainder(b[k + 1..])
  }

  /** Each line followed by a newline, concatenated. */
  function Join(lines: seq<seq<byte>>): seq<byte> {
    if lines == [] then [] else lines[0] + [Newline] + Join(lines[1..])
  }

  /** No line contains a newline. */
  predicate NoNewlines(lines: seq<seq<byte>>) {
    forall i :: 0 <= i < |lines| ==> Newline !in lines[i]
  }

  /** Splitting at the first newline: the head becomes a line, the rest is framed on. */
  lemma SplitFirst(line: seq<byte>, rest: seq<byte>)
    requires Newline !in line
    ensures Lines(line + [Newline] + rest) == [line] + Lines(rest)
    ensures Remainder(line + [Newline] + rest) == Remainder(rest)
  {
    var b := line + [Newline] + rest;
    assert b[|line|] == Newline;
    assert forall i :: 0 <= i < |line| ==> b[i] == line[i];
    var k := FirstNewline(b);
    assert k == |line|;
    assert b[..k] == line && b[k + 1..] == rest;
  }

  /** Concatenation is associative. */
  lemma AppendAssoc<T>(a: seq<T>, b: seq<T>, c: seq<T>)
    ensures a + (b + c) == (a + b) + c
  {
  }

  /** A buffer holding a newline has a first one. */
  lemma NewlineFound(b: seq<byte>)
    requires Newline in b
    ensures FirstNewline(b) < |b|
  {
    var i :| 0 <= i < |b| && b[i] == Newline;
  }

  /** The bytes before the first newline are the first line; framing goes on after it. */
  lemma CutFirstLine(b: seq<byte>)
    requires FirstNewline(b) < |b|
    ensures Lines(b) == [b[..FirstNewline(b)]] + Lines(b[FirstNewline(b) + 1..])
    ensures Remainder(b) == Remainder(b[FirstNewline(b) + 1..])
  {
  }

  /**
   * One turn of the split loop: when `lines` and `tail` are what framing has
   * left after `done`, the line cut off at the first newline is the next of
   * them, and the bytes after it frame to the same tail.
   */
  lemma NextLine(lines: seq<seq<byte>>, tail: seq<byte>, done: seq<seq<byte>>, rest: seq<byte>)
    requires Newline in rest
    requires lines == done + Lines(rest) && tail == Remainder(rest)
    ensures var k := FirstNewline(rest);
      && lines == (done + [rest[..k]]) + Lines(rest[k + 1..])
      && tail == Remainder(rest[k + 1..])
  {
    NewlineFound(rest);
    CutFirstLine(rest);
    var k := FirstNewline(rest);
    AppendAssoc(done, [rest[..k]], Lines(rest[k + 1..]));
  }

  /** A buffer with no newline holds no line and stays as it is. */
  lemma NoLineWithoutNewline(b: seq<byte>)
    requires Newline !in b
    ensures Lines(b) == [] && Remainder(b) == b
  {
  }

  /** Joining a line in front adds that line and its newline in front. */
  lemma JoinCons(line: seq<byte>, lines: seq<seq<byte>>)
    ensures Join([line] + lines) == line + [Newline] + Join(lines)
  {
    assert ([line] + lines)[1..] == lines;
  }

  /** Putting the cut-off line, its newline and the rebuilt tail back together gives the buffer. */
  lemma Reassemble(b: seq<byte>, k: nat, joined: seq<byte>, tail: seq<byte>)
    requires k < |b| && b[k] == Newline && joined + tail == b[k + 1..]
    ensures b[..k] + [Newline] + joined + tail == b
  {
    assert b[..k] + [Newline] + joined + tail == b[..k] + [Newline] + (joined + tail);
    assert b == b[..k] + [b[k]] + b[k + 1..];
  }

  /** Framing is lossless and keeps the order: the lines, each with its newline, then the tail. */
  lemma {:induction false} FramingLossless(b: seq<byte>)
    ensures Join(Lines(b)) + Remainder(b) == b
    decreases |b|
  {
    var k := FirstNewline(b);
    if k < |b| {
      var line, rest := b[..k], b[k + 1..];
      CutFirstLine(b);
      FramingLossless(rest);
      JoinCons(line, Lines(rest));
      Reassemble(b, k, Join(Lines(rest)), Remainder(rest));
    }
  }

  /** The tail left in the buffer never holds a newline. */
  lemma {:induction false} RemainderHasNoNewline(b: seq<byte>)
    ensures Newline !in Remainder(b)
    decreases |b|
  {
    var k := FirstNewline(b);
    if k < |b| {
      RemainderHasNoNewline(b[k + 1..]);
    } else {
      assert forall i :: 0 <= i < |b| ==> b[i] != Newline;
    }
  }

  /** No extracted line holds a newline. */
  lemma {:induction false} LinesHaveNoNewline(b: seq<byte>)
    ensures NoNewlines(Lines(b))
    decreases |b|
  {
    var k := FirstNewline(b);
    if k < |b| {
      LinesHaveNoNewline(b[k + 1..]);
      assert Newline !in b[..k] by {
        forall i | 0 <= i < k
          ensures b[..k][i] != Newline
        {
        }
      }
      var ls := Lines(b);
      assert ls == [b[..k]] + Lines(b[k + 1..]);
      forall i | 0 <= i < |ls|
        ensures Newline !in ls[i]
      {
        if i > 0 {
          assert ls[i] == Lines(b[k + 1..])[i - 1];
        }
      }
    }
  }

  /** Framing inverts joining: newline-free lines and tail come back out as they went in. */
  lemma {:induction false} JoinThenFrame(lines: seq<seq<byte>>, tail: seq<byte>)
    requires NoNewlines(lines) && Newline !in tail
    ensures Lines(Join(lines) + tail) == lines
    ensures Remainder(Join(lines) + tail) == tail
    decreases |lines|
  {
    if lines == [] {
      assert Join(lines) + tail == tail;
      NoLineWithoutNewline(tail);
    } else {
      var rest := Join(lines[1..]) + tail;
      assert NoNewlines(lines[1..]) by {
        forall i | 0 <= i < |lines[1..]|
          ensures Newline !in lines[1..][i]
        {
          assert lines[1..][i] == lines[i + 1];
        }
      }
      JoinThenFrame(lines[1..], tail);
      assert Join(lines) + tail == lines[0] + [Newline] + rest;
      SplitFirst(lines[0], rest);
      assert [lines[0]] + lines[1..] == lines;
    }
  }
}
