/**
 The exec stream between the guest agent and the launcher: frames on a byte
 stream, two producers and the exit report under one write lock, and the
 demultiplexer of the launcher.
 */
module ExecFrames {
  import opened Bytes
  import opened Wrappers

  const STDOUT: Byte := 1
  const STDERR: Byte := 2
  const EXIT: Byte := 3

  const MAX_FRAME := 65536
  const BUFFER := 32768

  datatype Frame = Frame(kind: Byte, data: seq<Byte>)

  datatype Read = Short | TooBig | Got(frame: Frame, rest: seq<Byte>)

  // Frames

  function Header(f: Frame): seq<Byte>
    requires |f.data| <= MAX_FRAME
  {
    [f.kind] + PutWord(|f.data|)
  }

  function Encode(f: Frame): seq<Byte>
    requires |f.data| <= MAX_FRAME
  {
    Header(f) + f.data
  }

  /** Writes one frame, or refuses data over the limit before any byte is out. */
  method WriteFrame(wire: seq<Byte>, kind: Byte, data: seq<Byte>) returns (ok: bool, after: seq<Byte>)
    ensures ok <==> |data| <= MAX_FRAME
    ensures if ok then
              |after| >= |wire| && after[..|wire|] == wire && Decode(after[|wire|..]) == Got(Frame(kind, data), [])
            else after == wire
  {
    if |data| > MAX_FRAME {
      return false, wire;
    }
    var header := [kind] + PutWord(|data|);
    after := wire + header;
    after := after + data;
    FrameRoundTrip(Frame(kind, data), []);
    assert after[|wire|..] == Encode(Frame(kind, data)) + [];
    return true, after;
  }

  /** What reading one frame off a stream gives. */
  function Decode(s: seq<Byte>): Read {
    if |s| < 5 then Short
    else
      var n := Word(s[1..5]);
      if n > MAX_FRAME then TooBig
      else if |s| - 5 < n then Short
      else Got(Frame(s[0], s[5..5 + n]), s[5 + n..])
  }

  /** The bytes of a frame: the kind, the length in four bytes, the data. */
  lemma FrameBytes(f: Frame)
    requires |f.data| <= MAX_FRAME
    ensures var n := |f.data|;
            Encode(f) == [f.kind, n / 16777216, n / 65536 % 256, n / 256 % 256, n % 256] + f.data
    ensures |f.data| <= 65536
  {
    var n := |f.data|;
    assert n / 256 / 256 == n / 65536 && n / 256 / 256 / 256 == n / 16777216;
  }

  lemma FrameRoundTrip(f: Frame, rest: seq<Byte>)
    requires |f.data| <= MAX_FRAME
    ensures Decode(Encode(f) + rest) == Got(f, rest)
  {
    hide PutWord, Word;
    var s := Encode(f) + rest;
    assert s[1..5] == PutWord(|f.data|);
    WordRoundTrip(|f.data|);
    assert s[5..5 + |f.data|] == f.data;
    assert s[5 + |f.data|..] == rest;
  }

  /** A frame that was read is the one whose encoding the stream began with. */
  lemma FrameInverse(s: seq<Byte>)
    requires Decode(s).Got?
    ensures |Decode(s).frame.data| <= MAX_FRAME
    ensures s == Encode(Decode(s).frame) + Decode(s).rest
  {
    hide PutWord, Word;
    WordInverse(s[1..5]);
    assert s == [s[0]] + s[1..5] + s[5..5 + Word(s[1..5])] + s[5 + Word(s[1..5])..];
  }

  /** No proper prefix of a frame reads as one. */
  lemma CutFrame(f: Frame, n: nat)
    requires |f.data| <= MAX_FRAME && n < |Encode(f)|
    ensures Decode(Encode(f)[..n]) == Short
  {
    hide PutWord, Word;
    if n >= 5 {
      assert Encode(f)[..n][1..5] == PutWord(|f.data|);
      WordRoundTrip(|f.data|);
    }
  }

  // Exit codes

  /** The 32-bit signed value a wider integer is cut to. */
  function Wrap(code: int): (r: int)
    ensures -0x8000_0000 <= r < 0x8000_0000
    ensures (code - r) % WORD == 0
  {
    var n := code % WORD;
    if n < 0x8000_0000 then n else n - WORD
  }

  function ExitFrame(code: int): seq<Byte> {
    PutWord(code % WORD)
  }

  function ExitCode(data: seq<Byte>): int {
    if |data| != 4 then 255
    else
      var n := Word(data);
      if n < 0x8000_0000 then n else n - WORD
  }

  /** The exit code survives exactly when it is a 32-bit signed value; else it is cut to one. */
  lemma ExitRoundTrip(code: int)
    ensures ExitCode(ExitFrame(code)) == Wrap(code)
    ensures ExitCode(ExitFrame(code)) == code <==> -0x8000_0000 <= code < 0x8000_0000
  {
    hide PutWord, Word;
    WordRoundTrip(code % WORD);
  }

  /** The code in the data of an exit frame: four bytes, high one first, in two's complement; else 255. */
  lemma ExitBytes(data: seq<Byte>)
    ensures |data| != 4 ==> ExitCode(data) == 255
    ensures |data| == 4 ==>
              var (b0: int, b1: int, b2: int, b3: int) := (data[0], data[1], data[2], data[3]);
              ExitCode(data) == (if b0 < 128 then b0 else b0 - 256) * 16777216 + b1 * 65536 + b2 * 256 + b3
  {
  }

  // The launcher's end

  datatype Outcome = Outcome(stdout: seq<Byte>, stderr: seq<Byte>, code: Option<int>)

  /** What one end of the stream makes of the bytes it got: each stream, and the code if the exit frame came. */
  function Demux(s: seq<Byte>): Outcome
    decreases |s|
  {
    var r := Decode(s);
    if !r.Got? then Outcome([], [], None)
    else if r.frame.kind == EXIT then Outcome([], [], Some(ExitCode(r.frame.data)))
    else Cons(r.frame, Demux(r.rest))
  }

  function Cons(f: Frame, o: Outcome): Outcome {
    o.(stdout := (if f.kind == STDOUT then f.data else []) + o.stdout,
       stderr := (if f.kind == STDERR then f.data else []) + o.stderr)
  }

  lemma DemuxNext(s: seq<Byte>)
    ensures var r := Decode(s);
            Demux(s) == if !r.Got? then Outcome([], [], None)
                        else if r.frame.kind == EXIT then Outcome([], [], Some(ExitCode(r.frame.data)))
                        else Cons(r.frame, Demux(r.rest))
  {
  }

  /** What was written so far, and what the rest of the stream brings. */
  function Then(stdout: seq<Byte>, stderr: seq<Byte>, o: Outcome): Outcome {
    Outcome(stdout + o.stdout, stderr + o.stderr, o.code)
  }

  lemma ThenCons(stdout: seq<Byte>, stderr: seq<Byte>, f: Frame, o: Outcome)
    ensures Then(stdout, stderr, Cons(f, o)) ==
              if f.kind == STDOUT then Then(stdout + f.data, stderr, o)
              else if f.kind == STDERR then Then(stdout, stderr + f.data, o)
              else Then(stdout, stderr, o)
  {
  }

  lemma ThenEnd(stdout: seq<Byte>, stderr: seq<Byte>, code: Option<int>)
    ensures Then(stdout, stderr, Outcome([], [], code)) == Outcome(stdout, stderr, code)
  {
  }

  lemma ThenStart(o: Outcome)
    ensures Then([], [], o) == o
  {
  }

  /** Writes what comes back to stdout and stderr until the exit frame. */
  method Exec(s: seq<Byte>) returns (stdout: seq<Byte>, stderr: seq<Byte>, code: Option<int>)
    ensures Outcome(stdout, stderr, code) == Demux(s)
  {
    hide Demux, Decode, Then, Cons, ExitCode;
    stdout, stderr, code := [], [], None;
    var r := s;
    ThenStart(Demux(s));
    while true
      invariant Demux(s) == Then(stdout, stderr, Demux(r))
      invariant code.None?
      decreases |r|
    {
      DemuxNext(r);
      var frame := ReadFrame(r);
      if frame.None? {
        ThenEnd(stdout, stderr, None);
        return;
      }
      var (f, rest) := frame.value;
      ThenCons(stdout, stderr, f, Demux(rest));
      if f.kind == STDOUT {
        stdout := stdout + f.data;
      } else if f.kind == STDERR {
        stderr := stderr + f.data;
      } else if f.kind == EXIT {
        code := Some(ExitCode(f.data));
        ThenEnd(stdout, stderr, code);
        return;
      }
      r := rest;
    }
  }

  method ReadFrame(s: seq<Byte>) returns (r: Option<(Frame, seq<Byte>)>)
    ensures r == if Decode(s).Got? then Some((Decode(s).frame, Decode(s).rest)) else None
    ensures r.Some? ==> |r.value.1| < |s|
  {
    if |s| < 5 {
      return None;
    }
    var n := Word(s[1..5]);
    if n > MAX_FRAME || |s| - 5 < n {
      return None;
    }
    return Some((Frame(s[0], s[5..5 + n]), s[5 + n..]));
  }

  // The agent's end: producers, the lock and the wire

  predicate Bounded(frames: seq<Frame>) {
    forall f :: f in frames ==> |f.data| <= MAX_FRAME
  }

  function EncodeAll(frames: seq<Frame>): seq<Byte>
    requires Bounded(frames)
  {
    if frames == [] then [] else EncodeAll(frames[..|frames| - 1]) + Encode(frames[|frames| - 1])
  }

  /** The data of one kind, in order. */
  function Of(frames: seq<Frame>, kind: Byte): seq<Byte> {
    if frames == [] then []
    else
      var last := frames[|frames| - 1];
      Of(frames[..|frames| - 1], kind) + if last.kind == kind then last.data else []
  }

  function Concat(chunks: seq<seq<Byte>>): seq<Byte> {
    if chunks == [] then [] else chunks[0] + Concat(chunks[1..])
  }

  /** Who holds the write lock, and how far its frame got. */
  datatype Held = Nobody | Holding(frame: Frame) | HeaderOut(frame: Frame)

  /** The exec of the agent: the chunks each producer still has to send, and what went out. */
  datatype Agent = Agent(
    out: seq<seq<Byte>>, err: seq<seq<Byte>>, held: Held, exiting: bool, wire: seq<Byte>, sent: seq<Frame>)

  datatype Step = TakeOut | TakeErr | TakeExit | PutHeader | PutData

  /** What the reads of a producer return: never empty, and no longer than its buffer. */
  predicate Chunks(chunks: seq<seq<Byte>>) {
    forall c :: c in chunks ==> 0 < |c| <= BUFFER
  }

  predicate Enabled(a: Agent, s: Step) {
    match s
    case TakeOut => a.held.Nobody? && a.out != []
    case TakeErr => a.held.Nobody? && a.err != []
    case TakeExit => a.held.Nobody? && a.out == [] && a.err == [] && !a.exiting
    case PutHeader => a.held.Holding? && |a.held.frame.data| <= MAX_FRAME
    case PutData => a.held.HeaderOut?
  }

  function Apply(a: Agent, s: Step, code: int): Agent
    requires Enabled(a, s)
  {
    match s
    case TakeOut => a.(out := a.out[1..], held := Holding(Frame(STDOUT, a.out[0])))
    case TakeErr => a.(err := a.err[1..], held := Holding(Frame(STDERR, a.err[0])))
    case TakeExit => a.(exiting := true, held := Holding(Frame(EXIT, ExitFrame(code))))
    case PutHeader => a.(held := HeaderOut(a.held.frame), wire := a.wire + Header(a.held.frame))
    case PutData => a.(held := Nobody, wire := a.wire + a.held.frame.data, sent := a.sent + [a.held.frame])
  }

  ghost predicate Run(out: seq<seq<Byte>>, err: seq<seq<Byte>>, code: int, states: seq<Agent>, steps: seq<Step>) {
    && |states| == |steps| + 1
    && states[0] == Agent(out, err, Nobody, false, [], [])
    && forall i :: 0 <= i < |steps| ==>
         Enabled(states[i], steps[i]) && states[i + 1] == Apply(states[i], steps[i], code)
  }

  /** The frames sent and the one in hand. */
  function Committed(a: Agent): seq<Frame> {
    if a.held.Nobody? then a.sent else a.sent + [a.held.frame]
  }

  predicate NoExit(frames: seq<Frame>) {
    forall f :: f in frames ==> f.kind != EXIT
  }

  predicate WireOk(a: Agent) {
    && Bounded(Committed(a))
    && (a.held.Nobody? || a.held.frame.data != [])
    && a.wire == if a.held.HeaderOut? then EncodeAll(a.sent) + Header(a.held.frame) else EncodeAll(a.sent)
  }

  /** Nothing of an output is lost, doubled or out of order. */
  predicate StreamsOk(a: Agent, out: seq<seq<Byte>>, err: seq<seq<Byte>>) {
    && Chunks(a.out) && Chunks(a.err)
    && Of(Committed(a), STDOUT) + Concat(a.out) == Concat(out)
    && Of(Committed(a), STDERR) + Concat(a.err) == Concat(err)
  }

  /** The exit frame comes last. */
  predicate ExitOk(a: Agent, code: int) {
    if !a.exiting then NoExit(Committed(a))
    else
      var n := |Committed(a)| - 1;
      && 0 <= n && NoExit(Committed(a)[..n]) && Committed(a)[n] == Frame(EXIT, ExitFrame(code))
      && a.out == [] && a.err == []
  }

  predicate Inv(a: Agent, out: seq<seq<Byte>>, err: seq<seq<Byte>>, code: int) {
    WireOk(a) && StreamsOk(a, out, err) && ExitOk(a, code)
  }

  lemma OfAppend(frames: seq<Frame>, f: Frame, kind: Byte)
    ensures Of(frames + [f], kind) == if f.kind == kind then Of(frames, kind) + f.data else Of(frames, kind)
  {
    assert (frames + [f])[..|frames|] == frames;
  }

  lemma EncodeAppend(frames: seq<Frame>, f: Frame)
    requires Bounded(frames) && |f.data| <= MAX_FRAME
    ensures Bounded(frames + [f]) && EncodeAll(frames + [f]) == EncodeAll(frames) + Encode(f)
  {
    assert (frames + [f])[..|frames|] == frames;
  }

  lemma StepWire(a: Agent, s: Step, code: int)
    requires WireOk(a) && Chunks(a.out) && Chunks(a.err) && Enabled(a, s)
    ensures WireOk(Apply(a, s, code))
  {
    hide EncodeAll, Header, PutWord;
    match s
    case TakeOut => assert a.out[0] in a.out;
    case TakeErr => assert a.err[0] in a.err;
    case TakeExit =>
    case PutHeader =>
    case PutData =>
      EncodeAppend(a.sent, a.held.frame);
      assert EncodeAll(a.sent) + (Header(a.held.frame) + a.held.frame.data) == a.wire + a.held.frame.data;
  }

  lemma Uncons(chunks: seq<seq<Byte>>, before: seq<Byte>)
    requires chunks != [] && Chunks(chunks)
    ensures Chunks(chunks[1..])
    ensures before + Concat(chunks) == before + chunks[0] + Concat(chunks[1..])
  {
    assert before + (chunks[0] + Concat(chunks[1..])) == before + chunks[0] + Concat(chunks[1..]);
  }

  lemma StepStreams(a: Agent, s: Step, out: seq<seq<Byte>>, err: seq<seq<Byte>>, code: int)
    requires StreamsOk(a, out, err) && Enabled(a, s)
    ensures StreamsOk(Apply(a, s, code), out, err)
  {
    hide Of, Header, ExitFrame, Concat, Chunks;
    match s
    case TakeOut =>
      OfAppend(a.sent, Frame(STDOUT, a.out[0]), STDOUT);
      OfAppend(a.sent, Frame(STDOUT, a.out[0]), STDERR);
      Uncons(a.out, Of(a.sent, STDOUT));
    case TakeErr =>
      OfAppend(a.sent, Frame(STDERR, a.err[0]), STDOUT);
      OfAppend(a.sent, Frame(STDERR, a.err[0]), STDERR);
      Uncons(a.err, Of(a.sent, STDERR));
    case TakeExit =>
      OfAppend(a.sent, Frame(EXIT, ExitFrame(code)), STDOUT);
      OfAppend(a.sent, Frame(EXIT, ExitFrame(code)), STDERR);
    case PutHeader =>
    case PutData =>
  }

  lemma StepExit(a: Agent, s: Step, code: int)
    requires ExitOk(a, code) && Enabled(a, s)
    ensures ExitOk(Apply(a, s, code), code)
  {
    hide ExitFrame, Header;
    if s.TakeExit? {
      assert (a.sent + [Frame(EXIT, ExitFrame(code))])[..|a.sent|] == a.sent;
    }
  }

  lemma StepInv(a: Agent, s: Step, out: seq<seq<Byte>>, err: seq<seq<Byte>>, code: int)
    requires Inv(a, out, err, code) && Enabled(a, s)
    ensures Inv(Apply(a, s, code), out, err, code)
  {
    hide WireOk, ExitOk, Enabled, Apply;
    StepWire(a, s, code);
    StepStreams(a, s, out, err, code);
    StepExit(a, s, code);
  }

  lemma {:induction false} RunInv(out: seq<seq<Byte>>, err: seq<seq<Byte>>, code: int,
                                  states: seq<Agent>, steps: seq<Step>, n: nat)
    requires Run(out, err, code, states, steps) && Chunks(out) && Chunks(err) && n < |states|
    ensures Inv(states[n], out, err, code)
  {
    hide Apply, Enabled;
    if n > 0 {
      hide Inv;
      RunInv(out, err, code, states, steps, n - 1);
      assert Enabled(states[n - 1], steps[n - 1]) && states[n - 1 + 1] == Apply(states[n - 1], steps[n - 1], code);
      StepInv(states[n - 1], steps[n - 1], out, err, code);
    }
  }

  /** What the agent still has to do. */
  function Rank(a: Agent): nat {
    3 * (|a.out| + |a.err|) + (if a.exiting then 0 else 3) +
    match a.held case Nobody => 0 case HeaderOut(_) => 1 case Holding(_) => 2
  }

  /** Until the exit frame is out some step can be taken, no frame is refused, and every step brings the end nearer. */
  lemma AgentMoves(a: Agent, out: seq<seq<Byte>>, err: seq<seq<Byte>>, code: int) returns (s: Step)
    requires Inv(a, out, err, code) && !(a.exiting && a.held.Nobody?)
    ensures Enabled(a, s) && Rank(Apply(a, s, code)) < Rank(a)
  {
    hide EncodeAll, Of, Concat, Header, ExitFrame;
    if a.held.Holding? {
      assert a.held.frame in Committed(a);
      s := PutHeader;
    } else if a.held.HeaderOut? {
      s := PutData;
    } else if a.out != [] {
      s := TakeOut;
    } else if a.err != [] {
      s := TakeErr;
    } else {
      s := TakeExit;
    }
  }

  // From the agent to the launcher

  lemma DemuxFrame(f: Frame, rest: seq<Byte>)
    requires |f.data| <= MAX_FRAME
    ensures Demux(Encode(f) + rest) ==
              if f.kind == EXIT then Outcome([], [], Some(ExitCode(f.data))) else Cons(f, Demux(rest))
  {
    hide Encode, Decode, Demux;
    FrameRoundTrip(f, rest);
    DemuxNext(Encode(f) + rest);
  }

  lemma {:induction false} DemuxFrames(frames: seq<Frame>, rest: seq<Byte>)
    requires Bounded(frames) && NoExit(frames)
    ensures Demux(EncodeAll(frames) + rest) ==
              Outcome(Of(frames, STDOUT) + Demux(rest).stdout, Of(frames, STDERR) + Demux(rest).stderr,
                      Demux(rest).code)
  {
    hide Demux, Encode;
    if frames == [] {
      assert EncodeAll(frames) + rest == rest;
    } else {
      var init, f := frames[..|frames| - 1], frames[|frames| - 1];
      assert EncodeAll(frames) + rest == EncodeAll(init) + (Encode(f) + rest);
      DemuxFrames(init, Encode(f) + rest);
      DemuxFrame(f, rest);
    }
  }

  /** The kinds on the wire: 1 is stdout, 2 is stderr, 3 ends the stream, and any other is passed over. */
  lemma DemuxKinds(f: Frame, rest: seq<Byte>)
    requires |f.data| <= MAX_FRAME
    ensures var o, after := Demux(Encode(f) + rest), Demux(rest);
            && (f.kind == 1 ==> o == Outcome(f.data + after.stdout, after.stderr, after.code))
            && (f.kind == 2 ==> o == Outcome(after.stdout, f.data + after.stderr, after.code))
            && (f.kind == 3 ==> o == Outcome([], [], Some(ExitCode(f.data))))
            && (f.kind !in {1, 2, 3} ==> o == after)
  {
    hide Demux, Encode, ExitCode;
    DemuxFrame(f, rest);
  }

  /** A stream that was cut gives no code, and a prefix of each output. */
  lemma {:induction false} CutStream(frames: seq<Frame>, n: nat)
    requires Bounded(frames) && frames != [] && NoExit(frames[..|frames| - 1]) && n < |EncodeAll(frames)|
    ensures var o := Demux(EncodeAll(frames)[..n]);
            o.code.None? && o.stdout <= Of(frames, STDOUT) && o.stderr <= Of(frames, STDERR)
  {
    hide Demux, Encode;
    var init, f := frames[..|frames| - 1], frames[|frames| - 1];
    var done := |EncodeAll(init)|;
    if done <= n {
      var part := Encode(f)[..n - done];
      assert EncodeAll(frames)[..n] == EncodeAll(init) + part;
      CutFrame(f, n - done);
      DemuxNext(part);
      DemuxFrames(init, part);
    } else {
      assert EncodeAll(frames)[..n] == EncodeAll(init)[..n];
      CutStream(init, n);
    }
  }

  /**
   At any moment, under any interleaving of the producers, and however much of
   the stream has arrived: the launcher has written a prefix of each output, and
   if it returned a code, all of both outputs and the code itself.
   */
  lemma ExecFaithful(out: seq<seq<Byte>>, err: seq<seq<Byte>>, code: int,
                     states: seq<Agent>, steps: seq<Step>, n: nat, k: nat)
    requires Run(out, err, code, states, steps) && Chunks(out) && Chunks(err) && n < |states| && k <= |states[n].wire|
    ensures var o := Demux(states[n].wire[..k]);
            && o.stdout <= Concat(out) && o.stderr <= Concat(err)
            && (o.code.Some? ==> o == Outcome(Concat(out), Concat(err), Some(Wrap(code))))
            && (o.code.Some? <==> states[n].exiting && states[n].held.Nobody? && k == |states[n].wire|)
  {
    hide Run, Demux, Encode, Of, EncodeAll;
    RunInv(out, err, code, states, steps, n);
    WireFaithful(states[n], out, err, code, k);
  }

  lemma WireFaithful(a: Agent, out: seq<seq<Byte>>, err: seq<seq<Byte>>, code: int, k: nat)
    requires Inv(a, out, err, code) && k <= |a.wire|
    ensures var o := Demux(a.wire[..k]);
            && o.stdout <= Concat(out) && o.stderr <= Concat(err)
            && (o.code.Some? ==> o == Outcome(Concat(out), Concat(err), Some(Wrap(code))))
            && (o.code.Some? <==> a.exiting && a.held.Nobody? && k == |a.wire|)
  {
    hide Demux, Of, EncodeAll, Encode, Header, ExitFrame, Wrap, Concat;
    var frames := Committed(a);
    WireOf(a);
    assert a.wire[..k] == EncodeAll(frames)[..k];
    NoFrames();
    if k < |EncodeAll(frames)| {
      CutStream(frames, k);
    } else if !a.exiting {
      DemuxFrames(frames, []);
      assert a.wire[..k] == EncodeAll(frames) + [];
    } else {
      var init, f := frames[..|frames| - 1], frames[|frames| - 1];
      assert frames == init + [f];
      EncodeAppend(init, f);
      OfAppend(init, f, STDOUT);
      OfAppend(init, f, STDERR);
      DemuxFrames(init, Encode(f));
      assert Encode(f) + [] == Encode(f);
      DemuxFrame(f, []);
      ExitRoundTrip(code);
      assert a.wire[..k] == EncodeAll(init) + Encode(f);
    }
  }

  /** What is on the wire is the start of the frames sent and in hand, and all of them only between frames. */
  lemma WireOf(a: Agent)
    requires WireOk(a)
    ensures a.wire <= EncodeAll(Committed(a))
    ensures |a.wire| == |EncodeAll(Committed(a))| <==> a.held.Nobody?
  {
    hide EncodeAll, PutWord;
    if !a.held.Nobody? {
      EncodeAppend(a.sent, a.held.frame);
    }
  }

  lemma NoFrames()
    ensures EncodeAll([]) == [] && Of([], STDOUT) == [] && Of([], STDERR) == [] && Concat([]) == []
    ensures Demux([]) == Outcome([], [], None)
  {
  }
}
