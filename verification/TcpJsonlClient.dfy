/** The client's outgoing queue and its framing of received bytes
    (`TcpJsonlClient::Impl`). `Sender` is the value of the queue together with
    the local variable `current` of `ProcessConnection`, over any kind of line. */
module TcpJsonlClient {
  import opened Wrappers

  // ----- The queue ------------------------------------------------------------

  datatype Sender<Line> = Sender(
    pending: seq<Line>, resync: Option<Line>, current: Option<Line>, connected: bool)

  function InitialQueued<Line>(sender: Sender<Line>, full: Line): Sender<Line> {
    sender.(resync := Some(full), pending := [full])
  }

  predicate Overflows<Line>(sender: Sender<Line>, maxPending: nat) {
    |sender.pending| >= maxPending
  }

  /** A delta is appended; a full queue is replaced by one full snapshot. */
  function DeltaQueued<Line>(sender: Sender<Line>, maxPending: nat, delta: Line, full: Line): Sender<Line> {
    if Overflows(sender, maxPending) then InitialQueued(sender, full)
    else sender.(resync := Some(full), pending := sender.pending + [delta])
  }

  /** A new connection starts with the latest snapshot and drops the rest. */
  function Connected<Line>(sender: Sender<Line>): Sender<Line> {
    Sender([], sender.resync, sender.resync, true)
  }

  function NextTaken<Line>(sender: Sender<Line>): Sender<Line> {
    if sender.current.Some? || sender.pending == [] then sender
    else sender.(current := Some(sender.pending[0]), pending := sender.pending[1..])
  }

  function CurrentSent<Line>(sender: Sender<Line>): Sender<Line> {
    sender.(current := None)
  }

  /** The unsent line goes back to the front and the connection ends. */
  function SendFailed<Line>(sender: Sender<Line>): Sender<Line>
    requires sender.current.Some?
  {
    Sender([sender.current.value] + sender.pending, sender.resync, None, false)
  }

  function Disconnected<Line>(sender: Sender<Line>): Sender<Line> {
    sender.(connected := false, current := None)
  }

  // ----- Lines and chunks -------------------------------------------------------

  const CR: char := '\r'
  const LF: char := '\n'

  /** `Normalize`: trailing CR and LF replaced by one LF. */
  function TrimEnd(text: string): string {
    if text != "" && (text[|text| - 1] == CR || text[|text| - 1] == LF) then TrimEnd(text[..|text| - 1]) else text
  }

  function Normalized(text: string): string {
    TrimEnd(text) + [LF]
  }

  /** Position of the first newline, or the length if there is none. */
  function NewlineAt(text: string): (n: nat)
    ensures n <= |text|
    ensures forall i :: 0 <= i < n ==> text[i] != LF
    ensures n < |text| ==> text[n] == LF
  {
    if text == "" || text[0] == LF then 0 else 1 + NewlineAt(text[1..])
  }

  datatype Split = Split(lines: seq<string>, rest: string)

  /** The complete lines of a buffer, without their newline, and what is left. */
  function SplitLines(buffer: string): Split
    decreases |buffer|
  {
    var n := NewlineAt(buffer);
    if n == |buffer| then Split([], buffer)
    else
      var tail := SplitLines(buffer[n + 1..]);
      Split([buffer[..n]] + tail.lines, tail.rest)
  }

  function DropCarriageReturn(line: string): string {
    if line != "" && line[|line| - 1] == CR then line[..|line| - 1] else line
  }

  /** The lines that reach the handler: one trailing CR removed, empty ones skipped. */
  function Handled(lines: seq<string>): seq<string> {
    if lines == [] then []
    else
      var line := DropCarriageReturn(lines[0]);
      (if line == "" then [] else [line]) + Handled(lines[1..])
  }

  /** `DispatchLines` after every received chunk. */
  function DispatchChunks(buffer: string, chunks: seq<string>): Split
    decreases |chunks|
  {
    if chunks == [] then Split([], buffer)
    else
      var now := SplitLines(buffer + chunks[0]);
      var later := DispatchChunks(now.rest, chunks[1..]);
      Split(Handled(now.lines) + later.lines, later.rest)
  }

  function Concat(parts: seq<string>): string {
    if parts == [] then "" else parts[0] + Concat(parts[1..])
  }

  predicate NoNewline(text: string) {
    NewlineAt(text) == |text|
  }

  lemma NewlineIs(text: string, n: nat)
    requires n <= |text| && (n < |text| ==> text[n] == LF)
    requires forall i :: 0 <= i < n ==> text[i] != LF
    ensures NewlineAt(text) == n
  {
  }

  lemma SplitStep(line: string, tail: string)
    requires NoNewline(line)
    ensures SplitLines(line + [LF] + tail) == Split([line] + SplitLines(tail).lines, SplitLines(tail).rest)
  {
    var buffer := line + [LF] + tail;
    NewlineIs(buffer, |line|);
    assert buffer[..|line|] == line && buffer[|line| + 1..] == tail;
  }

  lemma SplitNone(text: string)
    requires NoNewline(text)
    ensures SplitLines(text) == Split([], text)
  {
  }

  /** The first line of a buffer that holds one, and what comes after it. */
  lemma FirstLine(buffer: string) returns (line: string, tail: string)
    requires !NoNewline(buffer)
    ensures NoNewline(line) && buffer == line + [LF] + tail && |tail| < |buffer|
  {
    var n := NewlineAt(buffer);
    line, tail := buffer[..n], buffer[n + 1..];
    NewlineIs(line, n);
  }

  /** Splitting in two steps, keeping the unfinished line, is splitting once. */
  lemma {:induction false} SplitInTwo(left: string, right: string)
    ensures var first := SplitLines(left);
      var second := SplitLines(first.rest + right);
      SplitLines(left + right) == Split(first.lines + second.lines, second.rest)
    decreases |left|
  {
    hide SplitLines, NoNewline, NewlineAt;
    if NoNewline(left) {
      SplitNone(left);
      assert [] + SplitLines(left + right).lines == SplitLines(left + right).lines;
    } else {
      var line, tail := FirstLine(left);
      SplitInTwo(tail, right);
      SplitStep(line, tail);
      SplitStep(line, tail + right);
      assert left + right == line + [LF] + (tail + right);
      var rest := SplitLines(tail);
      var second := SplitLines(rest.rest + right);
      assert [line] + (rest.lines + second.lines) == ([line] + rest.lines) + second.lines;
    }
  }

  lemma HandledOne(line: string, lines: seq<string>)
    ensures Handled([line] + lines) == Handled([line]) + Handled(lines)
  {
    assert ([line] + lines)[1..] == lines && [line][1..] == [];
    assert Handled([]) == [];
  }

  lemma {:induction false} HandledConcat(left: seq<string>, right: seq<string>)
    ensures Handled(left + right) == Handled(left) + Handled(right)
  {
    if left == [] {
      assert left + right == right;
    } else {
      hide Handled;
      HandledConcat(left[1..], right);
      assert left + right == [left[0]] + (left[1..] + right) && left == [left[0]] + left[1..];
      HandledOne(left[0], left[1..] + right);
      HandledOne(left[0], left[1..]);
    }
  }

  lemma SplitRestHasNoNewline(buffer: string)
    ensures NoNewline(SplitLines(buffer).rest)
    decreases |buffer|
  {
    var n := NewlineAt(buffer);
    if n < |buffer| {
      SplitRestHasNoNewline(buffer[n + 1..]);
    }
  }

  /** However the stream is cut into chunks, the handler gets the same lines. */
  lemma {:induction false} ChunksDoNotMatter(buffer: string, chunks: seq<string>)
    requires NoNewline(buffer)
    ensures DispatchChunks(buffer, chunks)
         == Split(Handled(SplitLines(buffer + Concat(chunks)).lines), SplitLines(buffer + Concat(chunks)).rest)
    decreases |chunks|
  {
    if chunks == [] {
      assert buffer + "" == buffer;
    } else {
      hide SplitLines, NoNewline, Handled;
      var received := buffer + chunks[0];
      var now := SplitLines(received);
      SplitRestHasNoNewline(received);
      ChunksDoNotMatter(now.rest, chunks[1..]);
      SplitInTwo(received, Concat(chunks[1..]));
      assert received + Concat(chunks[1..]) == buffer + Concat(chunks);
      HandledConcat(now.lines, SplitLines(now.rest + Concat(chunks[1..])).lines);
    }
  }

  // ----- Messages as lines --------------------------------------------------------

  /** A message that may be framed: not empty and without CR or LF. */
  predicate Frameable(text: string) {
    text != "" && forall i :: 0 <= i < |text| ==> text[i] != CR && text[i] != LF
  }

  lemma FrameableNormalized(text: string)
    requires Frameable(text)
    ensures Normalized(text) == text + [LF]
  {
  }

  function NormalizedAll(texts: seq<string>): seq<string> {
    if texts == [] then [] else [Normalized(texts[0])] + NormalizedAll(texts[1..])
  }

  /** Frameable messages written one after the other come back one by one. */
  lemma {:induction false} FramesRoundTrip(texts: seq<string>)
    requires forall i :: 0 <= i < |texts| ==> Frameable(texts[i])
    ensures SplitLines(Concat(NormalizedAll(texts))) == Split(texts, "")
    ensures Handled(texts) == texts
  {
    if texts != [] {
      var tail := Concat(NormalizedAll(texts[1..]));
      FrameableNormalized(texts[0]);
      NewlineIs(texts[0], |texts[0]|);
      FramesRoundTrip(texts[1..]);
      SplitStep(texts[0], tail);
      HandledOne(texts[0], texts[1..]);
      assert Handled([texts[0]]) == [texts[0]] by { assert [texts[0]][1..] == []; }
      hide SplitLines, NoNewline, Handled, Normalized;
      assert Concat(NormalizedAll(texts)) == texts[0] + [LF] + tail;
      assert [texts[0]] + texts[1..] == texts;
    }
  }

  /** The lines one after the other, each with its newline. */
  function Terminated(lines: seq<string>): string {
    if lines == [] then "" else lines[0] + [LF] + Terminated(lines[1..])
  }

  lemma HandledLine(text: string)
    requires Frameable(text)
    ensures Handled([text]) == [text] && Handled([text + [CR]]) == [text]
    ensures Handled([""]) == [] && Handled([[CR]]) == []
  {
    assert Handled([]) == [];
    assert [text][1..] == [] && [text + [CR]][1..] == [] && [""][1..] == [] && [[CR]][1..] == [];
    assert (text + [CR])[..|text|] == text;
  }

  lemma {:induction false} TerminatedSplit(lines: seq<string>)
    requires forall i :: 0 <= i < |lines| ==> NoNewline(lines[i])
    ensures SplitLines(Terminated(lines)) == Split(lines, "")
  {
    if lines != [] {
      hide NoNewline;
      TerminatedSplit(lines[1..]);
      SplitStep(lines[0], Terminated(lines[1..]));
      hide SplitLines;
      assert [lines[0]] + lines[1..] == lines;
    }
  }

  /** The line that a message arrives in: it, or it and a CR. */
  predicate Carries(line: string, text: string) {
    Frameable(text) && (line == text || line == text + [CR])
  }

  lemma CarriedLine(line: string, text: string)
    requires Carries(line, text)
    ensures NoNewline(line) && Handled([line]) == [text]
  {
    hide Handled;
    NewlineIs(line, |line|);
    HandledLine(text);
  }

  /** Messages come back one by one whether their lines end in LF or in CR and LF. */
  lemma {:induction false} LineEndsDoNotMatter(texts: seq<string>, lines: seq<string>)
    requires |lines| == |texts| && forall i :: 0 <= i < |texts| ==> Carries(lines[i], texts[i])
    ensures SplitLines(Terminated(lines)) == Split(lines, "") && Handled(lines) == texts
  {
    hide Carries, NoNewline, SplitLines, Terminated;
    forall i | 0 <= i < |lines| ensures NoNewline(lines[i]) {
      CarriedLine(lines[i], texts[i]);
    }
    TerminatedSplit(lines);
    if texts != [] {
      CarriedLine(lines[0], texts[0]);
      hide Handled;
      LineEndsDoNotMatter(texts[1..], lines[1..]);
      HandledOne(lines[0], lines[1..]);
      assert [lines[0]] + lines[1..] == lines && [texts[0]] + texts[1..] == texts;
    }
  }

  /** Empty lines between messages are skipped. */
  lemma EmptyLinesAreSkipped(left: seq<string>, right: seq<string>)
    ensures Handled(left + [""] + right) == Handled(left + right)
    ensures Handled(left + [[CR]] + right) == Handled(left + right)
  {
    HandledLine("x");
    hide Handled, Frameable;
    HandledConcat(left, right);
    SkippedBetween(left, "", right);
    SkippedBetween(left, [CR], right);
  }

  lemma SkippedBetween(left: seq<string>, line: string, right: seq<string>)
    requires Handled([line]) == []
    ensures Handled(left + [line] + right) == Handled(left) + Handled(right)
  {
    hide Handled;
    HandledConcat(left + [line], right);
    HandledConcat(left, [line]);
    assert Handled(left) + [] == Handled(left);
  }

  /** Normalizing takes away the CRs and LFs at the end, all of them and nothing
      else, and puts one LF there. */
  lemma {:induction false} NormalizedMeans(text: string) returns (kept: nat)
    ensures kept <= |text| && Normalized(text) == text[..kept] + [LF]
    ensures forall i :: kept <= i < |text| ==> text[i] == CR || text[i] == LF
    ensures kept > 0 ==> text[kept - 1] != CR && text[kept - 1] != LF
  {
    if text != "" && (text[|text| - 1] == CR || text[|text| - 1] == LF) {
      var front := text[..|text| - 1];
      kept := NormalizedMeans(front);
      forall i | kept <= i < |text| ensures text[i] == CR || text[i] == LF {
        if i < |front| { assert front[i] == text[i]; }
      }
    } else {
      kept := |text|;
    }
  }

  // ----- The object ---------------------------------------------------------------

  function LineOf(text: string): Option<string> {
    if text == "" then None else Some(text)
  }

  class Impl {
    const maxPendingMessages: nat
    var mPending: seq<string>
    var mResync: string
    var current: string
    var connected: bool
    var received: string

    function View(): Sender<string>
      reads this
    {
      Sender(mPending, LineOf(mResync), LineOf(current), connected)
    }

    /** An empty text in `mResync` or `current` stands for no line. */
    ghost predicate Valid()
      reads this
    {
      && maxPendingMessages > 0
      && (forall i :: 0 <= i < |mPending| ==> mPending[i] != "")
      && |mPending| <= maxPendingMessages + 1
      && (connected ==> |mPending| <= maxPendingMessages)
      && NoNewline(received)
    }

    constructor (maxPending: nat)
      requires maxPending > 0
      ensures Valid() && maxPendingMessages == maxPending && View() == Sender([], None, None, false) && received == ""
    {
      maxPendingMessages := maxPending;
      mPending, mResync, current, connected, received := [], "", "", false, "";
    }

    static method Normalize(json: string) returns (text: string)
      ensures text == Normalized(json) && text != ""
    {
      text := json;
      while text != "" && (text[|text| - 1] == CR || text[|text| - 1] == LF)
        invariant TrimEnd(text) == TrimEnd(json)
        decreases |text|
      {
        text := text[..|text| - 1];
      }
      text := text + [LF];
    }

    method QueueInitial(json: string)
      requires Valid()
      modifies this`mPending, this`mResync
      ensures Valid() && |mPending| <= maxPendingMessages
      ensures View() == InitialQueued(old(View()), Normalized(json))
    {
      mResync := Normalize(json);
      mPending := [mResync];
    }

    method QueueDelta(json: string, currentFullSnapshot: string) returns (queued: bool)
      requires Valid()
      modifies this`mPending, this`mResync
      ensures Valid() && |mPending| <= maxPendingMessages
      ensures View() == DeltaQueued(old(View()), maxPendingMessages, Normalized(json), Normalized(currentFullSnapshot))
      ensures queued == !Overflows(old(View()), maxPendingMessages)
    {
      mResync := Normalize(currentFullSnapshot);
      if |mPending| >= maxPendingMessages {
        mPending := [mResync];
        return false;
      }
      var line := Normalize(json);
      mPending := mPending + [line];
      queued := true;
    }

    /** `ProcessConnection` up to its loop. */
    method BeginConnection()
      requires Valid()
      modifies this
      ensures Valid() && View() == Connected(old(View())) && received == ""
    {
      current := mResync;
      mPending := [];
      received := "";
      connected := true;
    }

    /** The next line to send; other threads may queue while it is sent. */
    method TakeNext()
      requires Valid() && connected
      modifies this`current, this`mPending
      ensures Valid() && View() == NextTaken(old(View()))
    {
      if current == "" && mPending != [] {
        current := mPending[0];
        mPending := mPending[1..];
      }
    }

    /** After `SendAll`, which succeeded or not. */
    method FinishSend(sent: bool)
      requires Valid() && connected && current != ""
      modifies this`current, this`mPending, this`connected
      ensures Valid() && View() == if sent then CurrentSent(old(View())) else SendFailed(old(View()))
    {
      if !sent {
        mPending := [current] + mPending;
        connected := false;
      }
      current := "";
    }

    /** The rest of the turn when bytes arrive: the handler gets the complete
        lines, the unfinished one stays in the buffer. */
    method Receive(chunk: string) returns (handled: seq<string>)
      requires Valid()
      modifies this`received
      ensures Valid()
      ensures handled == Handled(SplitLines(old(received) + chunk).lines)
      ensures received == SplitLines(old(received) + chunk).rest
    {
      received := received + chunk;
      ghost var all := received;
      ghost var done: seq<string> := [];
      handled := [];
      assert done + SplitLines(received).lines == SplitLines(all).lines;
      assert Handled(done) == [];
      while NewlineAt(received) < |received|
        invariant SplitLines(all) == Split(done + SplitLines(received).lines, SplitLines(received).rest)
        invariant handled == Handled(done)
        decreases |received|
      {
        var newline := NewlineAt(received);
        var line := received[..newline];
        LineTaken(received, done);
        LineHandled(done, line);
        done := done + [line];
        received := received[newline + 1..];
        line := DropCarriageReturn(line);
        if line != "" {
          handled := handled + [line];
        }
      }
      assert done + [] == done;
    }
  }

  lemma LineTaken(buffer: string, done: seq<string>)
    requires NewlineAt(buffer) < |buffer|
    ensures var line, tail := buffer[..NewlineAt(buffer)], buffer[NewlineAt(buffer) + 1..];
      && SplitLines(buffer).rest == SplitLines(tail).rest
      && done + SplitLines(buffer).lines == (done + [line]) + SplitLines(tail).lines
  {
    var line, tail := buffer[..NewlineAt(buffer)], buffer[NewlineAt(buffer) + 1..];
    assert SplitLines(buffer) == Split([line] + SplitLines(tail).lines, SplitLines(tail).rest);
    hide *;
    assert done + ([line] + SplitLines(tail).lines) == (done + [line]) + SplitLines(tail).lines;
  }

  lemma LineHandled(done: seq<string>, line: string)
    ensures Handled(done + [line])
         == Handled(done) + (if DropCarriageReturn(line) == "" then [] else [DropCarriageReturn(line)])
  {
    hide DropCarriageReturn;
    assert Handled([]) == [] && [line][1..] == [];
    HandledConcat(done, [line]);
  }
}
