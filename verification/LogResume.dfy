/**
 Relaying a Pod log to a caller, and resuming after the source broke. Lines are
 what the kubelet prefix parser makes of them: stamped with an instant in
 nanoseconds, or plain. The zero instant is the zero anchor's.
 */
module LogResume {
  import opened Wrappers

  datatype Entry = Entry(ts: nat, text: string)
  datatype Line = Stamped(entry: Entry) | Plain(text: string)

  /** The last instant delivered, and how many lines of that instant were. */
  datatype Anchor = Anchor(stamp: nat, count: nat)

  const ZERO := Anchor(0, 0)
  const SECOND: nat := 1_000_000_000

  function Advance(a: Anchor, ts: nat): Anchor {
    if ts == a.stamp then a.(count := a.count + 1) else Anchor(ts, 1)
  }

  predicate Delivered(a: Anchor, ts: nat, seen: nat) {
    a.stamp != 0 && (ts < a.stamp || (ts == a.stamp && seen <= a.count))
  }

  /** Where a re-read opens: SinceTime has the resolution of a second. */
  function TopOfSecond(ts: nat): (top: nat)
    ensures top % 1_000_000_000 == 0 && top <= ts < top + 1_000_000_000
  {
    ts - ts % SECOND
  }

  // The relay over one source

  /** The last stamp of a pass so far, and the lines in a row that carry it. */
  datatype Tracker = Tracker(last: nat, seen: nat)

  function Track(lines: seq<Line>): Tracker {
    if lines == [] then Tracker(0, 0)
    else
      var t := Track(lines[..|lines| - 1]);
      match lines[|lines| - 1]
      case Plain(_) => t
      case Stamped(e) => if e.ts == t.last then t.(seen := t.seen + 1) else Tracker(e.ts, 1)
  }

  /** The last line of a pass so far is one the caller already has. */
  predicate Dropped(lines: seq<Line>, from: Anchor)
    requires lines != []
  {
    var line := lines[|lines| - 1];
    line.Stamped? && Delivered(from, line.entry.ts, Track(lines).seen)
  }

  /** The lines a pass forwards. */
  function Fresh(lines: seq<Line>, from: Anchor): seq<Line> {
    if lines == [] then []
    else Fresh(lines[..|lines| - 1], from) + (if Dropped(lines, from) then [] else [lines[|lines| - 1]])
  }

  function Stamps(lines: seq<Line>): seq<Entry> {
    if lines == [] then []
    else
      var last := lines[|lines| - 1];
      Stamps(lines[..|lines| - 1]) + (if last.Stamped? then [last.entry] else [])
  }

  function Unstamped(lines: seq<Line>): seq<string> {
    if lines == [] then []
    else
      var last := lines[|lines| - 1];
      Unstamped(lines[..|lines| - 1]) + (if last.Plain? then [last.text] else [])
  }

  function AnchorAfter(es: seq<Entry>, from: Anchor): Anchor {
    if es == [] then from else Advance(AnchorAfter(es[..|es| - 1], from), es[|es| - 1].ts)
  }

  function Chunk(line: Line): string {
    (if line.Stamped? then line.entry.text else line.text) + "\n"
  }

  function Chunks(lines: seq<Line>): seq<string> {
    seq(|lines|, i requires 0 <= i < |lines| => Chunk(lines[i]))
  }

  function Min(x: nat, y: nat): nat {
    if x <= y then x else y
  }

  function Max(x: nat, y: nat): nat {
    if x <= y then y else x
  }

  lemma TrackAppend(init: seq<Line>, line: Line)
    ensures var t := Track(init);
            Track(init + [line]) ==
              if line.Plain? then t
              else if line.entry.ts == t.last then t.(seen := t.seen + 1)
              else Tracker(line.entry.ts, 1)
  {
    assert (init + [line])[..|init|] == init;
  }

  lemma FreshAppend(init: seq<Line>, line: Line, from: Anchor)
    ensures Fresh(init + [line], from) ==
              if Dropped(init + [line], from) then Fresh(init, from) else Fresh(init, from) + [line]
  {
    assert (init + [line])[..|init|] == init;
  }

  lemma StampsAppend(init: seq<Line>, line: Line)
    ensures Stamps(init + [line]) == if line.Stamped? then Stamps(init) + [line.entry] else Stamps(init)
  {
    assert (init + [line])[..|init|] == init;
  }

  lemma UnstampedAppend(init: seq<Line>, line: Line)
    ensures Unstamped(init + [line]) == if line.Plain? then Unstamped(init) + [line.text] else Unstamped(init)
  {
    assert (init + [line])[..|init|] == init;
  }

  lemma AnchorAppend(es: seq<Entry>, e: Entry, from: Anchor)
    ensures AnchorAfter(es + [e], from) == Advance(AnchorAfter(es, from), e.ts)
  {
    assert (es + [e])[..|es|] == es;
  }

  lemma ChunksAppend(lines: seq<Line>, line: Line)
    ensures Chunks(lines + [line]) == Chunks(lines) + [Chunk(line)]
  {
  }

  lemma {:induction false} FreshPrefix(lines: seq<Line>, n: nat, from: Anchor)
    requires n <= |lines|
    ensures Fresh(lines[..n], from) <= Fresh(lines, from)
  {
    hide *;
    if n == |lines| {
      assert lines[..n] == lines;
    } else {
      var init := lines[..|lines| - 1];
      assert lines == init + [lines[|lines| - 1]];
      assert init[..n] == lines[..n];
      FreshPrefix(init, n, from);
      FreshAppend(init, lines[|lines| - 1], from);
    }
  }

  /**
   One pass over a source. `sends` is how many Sends succeed before one fails;
   `canceled` is whether the caller has gone by then.
   */
  method RelayLogStream(lines: seq<Line>, broke: bool, sends: nat, canceled: bool, from: Anchor)
    returns (sent: seq<string>, out: Anchor, sourceErr: bool, err: bool)
    ensures var through := if sends < |Fresh(lines, from)| then Fresh(lines, from)[..sends] else Fresh(lines, from);
            sent == Chunks(through) && out == AnchorAfter(Stamps(through), from)
    ensures forall i :: 0 <= i < |sent| ==>
              && i < |Fresh(lines, from)|
              && sent[i] == match Fresh(lines, from)[i]
                            case Stamped(e) => e.text + "\n"
                            case Plain(text) => text + "\n"
    ensures err <==> sends < |Fresh(lines, from)| && !canceled
    ensures sourceErr <==> broke && !canceled && |Fresh(lines, from)| <= sends
  {
    hide Track, Fresh, Stamps, AnchorAfter, Delivered, Advance;
    sent, out, sourceErr, err := [], from, false, false;
    ghost var passed: seq<Line> := [];
    var seenAtStamp, lastStamp := 0, 0;
    EmptyPass(from);
    assert lines[..0] == [];
    var i := 0;
    while i < |lines|
      invariant 0 <= i <= |lines|
      invariant passed == Fresh(lines[..i], from) && |passed| <= sends
      invariant Track(lines[..i]) == Tracker(lastStamp, seenAtStamp)
      invariant sent == Chunks(passed) && |sent| == |passed|
      invariant out == AnchorAfter(Stamps(passed), from)
      invariant !sourceErr && !err
    {
      var line := lines[i];
      assert lines[..i + 1] == lines[..i] + [line];
      TrackAppend(lines[..i], line);
      FreshAppend(lines[..i], line, from);
      i := i + 1;
      if line.Stamped? {
        if line.entry.ts == lastStamp {
          seenAtStamp := seenAtStamp + 1;
        } else {
          lastStamp, seenAtStamp := line.entry.ts, 1;
        }
        if Delivered(from, line.entry.ts, seenAtStamp) {
          continue;
        }
      }
      if |sent| == sends {
        FreshPrefix(lines, i, from);
        assert Fresh(lines, from)[..sends] == passed;
        return sent, out, false, !canceled;
      }
      sent := sent + [Chunk(line)];
      ChunksAppend(passed, line);
      StampsAppend(passed, line);
      if line.Stamped? {
        AnchorAppend(Stamps(passed), line.entry, from);
        out := Advance(out, line.entry.ts);
      }
      passed := passed + [line];
    }
    assert lines[..i] == lines;
    sourceErr := broke && !canceled;
  }

  lemma EmptyPass(from: Anchor)
    ensures Fresh([], from) == [] && Track([]) == Tracker(0, 0) && Stamps([]) == [] && Chunks([]) == []
    ensures AnchorAfter([], from) == from
  {
  }

  datatype Source = Source(lines: seq<Line>, broke: bool)

  /** Where the re-read after a broken pass opens: at the top of the log when nothing was delivered. */
  function Since(from: Anchor): Option<nat> {
    if from.stamp == 0 then None else Some(TopOfSecond(from.stamp))
  }

  function AfterPass(lines: seq<Line>, from: Anchor): Anchor {
    AnchorAfter(Stamps(Fresh(lines, from)), from)
  }

  /** The texts of the entries, each with its newline. */
  function Texts(es: seq<Entry>): seq<string> {
    seq(|es|, i requires 0 <= i < |es| => es[i].text + "\n")
  }

  /** A first pass over [a, k) of an ordered log, and the re-read it asks for, up to `upto`. */
  ghost predicate ReadsLog(log: seq<Entry>, a: nat, k: nat, upto: nat, first: seq<Line>, second: seq<Line>) {
    && Ordered(log) && a <= k <= upto <= |log|
    && (forall line :: line in first + second ==> line.Stamped?)
    && Stamps(first) == log[a..k] && Stamps(second) == Window(log, AnchorAfter(log[a..k], ZERO), upto)
  }

  /**
   The whole of a stream: the first pass, and one re-read if its source broke.
   `canceled`, `gone` and `canceledAgain` are whether the caller has gone at the end
   of the first pass, before the re-read and at its end.
   */
  method StreamLogs(first: Source, reread: Option<nat> -> Option<Source>, sends: nat,
                    canceled: bool, gone: bool, canceledAgain: bool)
    returns (sent: seq<string>, ok: bool)
    ensures var all := Fresh(first.lines, ZERO);
            var from := AfterPass(first.lines, ZERO);
            var again := reread(Since(from));
            if sends < |all| then sent == Chunks(all[..sends]) && ok == canceled
            else if !first.broke || canceled || gone then sent == Chunks(all) && ok
            else if again.None? then sent == Chunks(all) && !ok
            else
              var more, left := Fresh(again.value.lines, from), sends - |all|;
              && sent == Chunks(all) + Chunks(if left < |more| then more[..left] else more)
              && (ok <==> canceledAgain || (!again.value.broke && |more| <= left))
    ensures var again := reread(Since(AfterPass(first.lines, ZERO)));
            first.broke && !canceled && !gone && again.Some? ==>
              forall log: seq<Entry>, a: nat, k: nat, upto: nat ::
                ReadsLog(log, a, k, upto, first.lines, again.value.lines) && k - a + |again.value.lines| <= sends ==>
                  (sent == Texts(log[a..upto]) <==> if k == a then a == 0 else a <= Below(log, log[k - 1].ts))
  {
    hide Fresh, Stamps, AnchorAfter, TopOfSecond, ReadsLog, Below, Texts, Chunk;
    StreamDelivers(first.lines, reread(Since(AfterPass(first.lines, ZERO))), sends);
    var anchor, broke, err;
    sent, anchor, broke, err := RelayLogStream(first.lines, first.broke, sends, canceled, ZERO);
    if err {
      return sent, false;
    }
    if !broke || gone {
      return sent, true;
    }
    var again := reread(Since(anchor));
    if again.None? {
      return sent, false;
    }
    var more;
    more, anchor, broke, err :=
      RelayLogStream(again.value.lines, again.value.broke, sends - |sent|, canceledAgain, anchor);
    return sent + more, !err && !broke;
  }

  // Ordered logs

  ghost predicate Ordered(es: seq<Entry>) {
    && (forall i :: 0 <= i < |es| ==> es[i].ts > 0)
    && (forall i, j :: 0 <= i < j < |es| ==> es[i].ts <= es[j].ts)
  }

  lemma OrderedAt(es: seq<Entry>, i: nat, j: nat)
    requires Ordered(es) && i <= j < |es|
    ensures 0 < es[i].ts <= es[j].ts
  {
  }

  lemma OrderedSlice(es: seq<Entry>, lo: nat, hi: nat)
    requires Ordered(es) && lo <= hi <= |es|
    ensures Ordered(es[lo..hi])
  {
  }

  lemma OrderedInit(es: seq<Entry>, e: Entry)
    requires Ordered(es + [e])
    ensures Ordered(es)
    ensures es != [] ==> es[|es| - 1].ts <= e.ts
    ensures e.ts > 0
  {
    var all := es + [e];
    assert all[|es|] == e;
    assert forall i :: 0 <= i < |es| ==> all[i] == es[i];
  }

  /** How many entries come before the instant. */
  function Below(es: seq<Entry>, t: nat): (n: nat)
    ensures n <= |es|
  {
    if es == [] || es[0].ts >= t then 0 else 1 + Below(es[1..], t)
  }

  lemma {:induction false} BelowAt(es: seq<Entry>, t: nat, i: nat)
    requires Ordered(es) && i < |es|
    ensures es[i].ts < t <==> i < Below(es, t)
  {
    hide Ordered;
    OrderedAt(es, 0, i);
    if 0 < i && es[0].ts < t {
      OrderedSlice(es, 1, |es|);
      assert es[1..|es|] == es[1..];
      BelowAt(es[1..], t, i - 1);
    }
  }

  lemma BelowIs(es: seq<Entry>, t: nat, n: nat)
    requires Ordered(es) && n <= |es|
    requires 0 < n ==> es[n - 1].ts < t
    requires n < |es| ==> es[n].ts >= t
    ensures Below(es, t) == n
  {
    hide Ordered, Below;
    if 0 < n {
      BelowAt(es, t, n - 1);
    }
    if n < |es| {
      BelowAt(es, t, n);
    }
  }

  function Clamp(x: nat, lo: nat, hi: nat): nat {
    if x < lo then lo else if hi < x then hi else x
  }

  lemma BelowSlice(log: seq<Entry>, lo: nat, hi: nat, t: nat)
    requires Ordered(log) && lo <= hi <= |log|
    ensures Ordered(log[lo..hi])
    ensures Below(log[lo..hi], t) == Clamp(Below(log, t), lo, hi) - lo
  {
    hide Ordered, Below;
    OrderedSlice(log, lo, hi);
    var n := Clamp(Below(log, t), lo, hi) - lo;
    if 0 < n {
      BelowAt(log, t, lo + n - 1);
    }
    if n < hi - lo {
      BelowAt(log, t, lo + n);
    }
    BelowIs(log[lo..hi], t, n);
  }

  lemma BelowOrder(log: seq<Entry>, s: nat, t: nat)
    requires Ordered(log) && s <= t
    ensures Below(log, s) <= Below(log, t)
  {
    hide Ordered, Below;
    var m := Below(log, s);
    if 0 < m {
      BelowAt(log, s, m - 1);
      BelowAt(log, t, m - 1);
    }
  }

  lemma BelowAppend(es: seq<Entry>, e: Entry, t: nat)
    requires Ordered(es + [e])
    ensures Ordered(es)
    ensures Below(es, t) == if e.ts < t then |es| else Below(es + [e], t)
    ensures e.ts < t ==> Below(es + [e], t) == |es| + 1
  {
    hide Ordered, Below;
    var all := es + [e];
    assert all[0..|es|] == es && all[|es|] == e;
    BelowSlice(all, 0, |es|, t);
    BelowAt(all, t, |es|);
  }

  /** The tracker of an ordered pass counts the lines of the last instant. */
  lemma {:induction false} TrackCounts(lines: seq<Line>)
    requires Ordered(Stamps(lines))
    ensures var es := Stamps(lines);
            Track(lines) == if es == [] then Tracker(0, 0)
                            else Tracker(es[|es| - 1].ts, |es| - Below(es, es[|es| - 1].ts))
  {
    hide *;
    if lines == [] {
      EmptyPass(ZERO);
    } else {
      var init, line := lines[..|lines| - 1], lines[|lines| - 1];
      assert lines == init + [line];
      StampsAppend(init, line);
      TrackAppend(init, line);
      if line.Stamped? {
        var before, e := Stamps(init), line.entry;
        OrderedInit(before, e);
        TrackCounts(init);
        BelowAppend(before, e, e.ts);
        if before != [] && before[|before| - 1].ts < e.ts {
          BelowIs(before, e.ts, |before|);
        }
      } else {
        assert Stamps(lines) == Stamps(init);
        TrackCounts(init);
      }
    }
  }

  /** How many entries of an ordered pass the anchor covers. */
  function Skipped(es: seq<Entry>, from: Anchor): (n: nat)
    ensures n <= |es|
  {
    if from.stamp == 0 then 0 else Min(Below(es, from.stamp) + from.count, Below(es, from.stamp + 1))
  }

  /** The entries of an ordered pass that the anchor does not cover. */
  function Rest(es: seq<Entry>, from: Anchor): seq<Entry> {
    es[Skipped(es, from)..]
  }

  lemma RestAppend(es: seq<Entry>, e: Entry, from: Anchor)
    requires Ordered(es + [e])
    ensures var all := es + [e];
            Rest(all, from) ==
              if Delivered(from, e.ts, |all| - Below(all, e.ts)) then Rest(es, from) else Rest(es, from) + [e]
  {
    hide Ordered, Below;
    BelowAppend(es, e, from.stamp);
    BelowAppend(es, e, from.stamp + 1);
  }

  /** Whether the last line of an ordered pass is dropped, by its place among the entries. */
  lemma DroppedMeans(init: seq<Line>, e: Entry, from: Anchor)
    requires Ordered(Stamps(init) + [e])
    ensures var all := Stamps(init) + [e];
            Dropped(init + [Stamped(e)], from) <==> Delivered(from, e.ts, |all| - Below(all, e.ts))
  {
    hide Ordered, Below, Track, Stamps, Delivered;
    StampsAppend(init, Stamped(e));
    TrackCounts(init + [Stamped(e)]);
  }

  lemma StampStep(init: seq<Line>, e: Entry, from: Anchor)
    requires Ordered(Stamps(init) + [e])
    ensures var all, line := Stamps(init) + [e], Stamped(e);
            Stamps(Fresh(init + [line], from)) ==
              if Delivered(from, e.ts, |all| - Below(all, e.ts)) then Stamps(Fresh(init, from))
              else Stamps(Fresh(init, from)) + [e]
  {
    hide *;
    FreshAppend(init, Stamped(e), from);
    StampsAppend(Fresh(init, from), Stamped(e));
    DroppedMeans(init, e, from);
  }

  /** A pass over an ordered source drops a prefix of its entries and forwards the rest. */
  lemma {:induction false} FreshIsSuffix(lines: seq<Line>, from: Anchor)
    requires Ordered(Stamps(lines))
    ensures Stamps(Fresh(lines, from)) == Rest(Stamps(lines), from)
    decreases |lines|
  {
    hide *;
    if lines == [] {
      EmptySuffix(from);
    } else {
      var init, line := Snoc(lines);
      StampsAppend(init, line);
      if line.Plain? {
        PlainStays(init, line, from);
        FreshIsSuffix(init, from);
      } else {
        OrderedInit(Stamps(init), line.entry);
        FreshIsSuffix(init, from);
        StampStep(init, line.entry, from);
        RestAppend(Stamps(init), line.entry, from);
      }
    }
  }

  lemma Snoc(lines: seq<Line>) returns (init: seq<Line>, line: Line)
    requires lines != []
    ensures lines == init + [line] && |init| < |lines|
  {
    init, line := lines[..|lines| - 1], lines[|lines| - 1];
  }

  lemma EmptySuffix(from: Anchor)
    ensures Stamps(Fresh([], from)) == Rest(Stamps([]), from)
  {
  }

  lemma PlainStays(init: seq<Line>, line: Line, from: Anchor)
    requires line.Plain?
    ensures Stamps(Fresh(init + [line], from)) == Stamps(Fresh(init, from))
  {
    hide Fresh, Stamps, Track;
    FreshAppend(init, line, from);
    StampsAppend(Fresh(init, from), line);
  }

  /** Unstamped lines are never dropped. */
  lemma {:induction false} UnstampedKept(lines: seq<Line>, from: Anchor)
    ensures Unstamped(Fresh(lines, from)) == Unstamped(lines)
  {
    hide Track, Fresh, Unstamped;
    if lines == [] {
      EmptyPass(from);
    } else {
      var init, line := lines[..|lines| - 1], lines[|lines| - 1];
      assert lines == init + [line];
      UnstampedKept(init, from);
      UnstampedAppend(init, line);
      FreshAppend(init, line, from);
      UnstampedAppend(Fresh(init, from), line);
    }
  }

  lemma {:induction false} AnchorOf(es: seq<Entry>, from: Anchor)
    requires Ordered(es) && es != []
    ensures var last := es[|es| - 1].ts;
            var n := Below(es, last);
            AnchorAfter(es, from) == Anchor(last, |es| - n + if n == 0 && from.stamp == last then from.count else 0)
  {
    hide Ordered, Below, AnchorAfter;
    var init, e := es[..|es| - 1], es[|es| - 1];
    assert es == init + [e];
    AnchorAppend(init, e, from);
    OrderedInit(init, e);
    BelowAppend(init, e, e.ts);
    if init == [] {
      EmptyPass(from);
    } else {
      AnchorOf(init, from);
      if init[|init| - 1].ts < e.ts {
        BelowIs(init, e.ts, |init|);
      }
    }
  }

  // Passes over one growing log

  /** The part of the log a re-read yields when it stops before `upto`. */
  function Window(log: seq<Entry>, from: Anchor, upto: nat): seq<Entry>
    requires upto <= |log|
  {
    var start := if Since(from).None? then 0 else Below(log, Since(from).value);
    log[start..Max(start, upto)]
  }

  /** The anchor says that exactly the entries from a to k were delivered. */
  ghost predicate AnchorAt(log: seq<Entry>, a: nat, k: nat, from: Anchor) {
    && a <= k <= |log|
    && if k == a then from == ZERO && a == 0
       else
         var g := Below(log, log[k - 1].ts);
         a <= g && from.stamp == log[k - 1].ts && g + from.count == k
  }

  /** The anchor of a first pass that started at a and stopped before k. */
  lemma FirstAnchor(log: seq<Entry>, a: nat, k: nat)
    requires Ordered(log) && a < k <= |log|
    ensures var from := AnchorAfter(log[a..k], ZERO);
            from.stamp == log[k - 1].ts && Max(a, Below(log, log[k - 1].ts)) + from.count == k
  {
    hide Ordered, Below, AnchorAfter;
    var last := log[k - 1].ts;
    OrderedAt(log, k - 1, k - 1);
    BelowSlice(log, a, k, last);
    BelowAt(log, last, k - 1);
    AnchorOf(log[a..k], ZERO);
  }

  /** How far into the log an anchor from a first pass over [a, k) makes a re-read skip. */
  function ResumePoint(log: seq<Entry>, a: nat, k: nat): nat
    requires a <= k <= |log|
  {
    if k == a then 0
    else
      var g := Below(log, log[k - 1].ts);
      g + k - Max(a, g)
  }

  lemma AnchorPlace(log: seq<Entry>, a: nat, k: nat)
    requires Ordered(log) && a < k <= |log|
    ensures var from, t := AnchorAfter(log[a..k], ZERO), log[k - 1].ts;
            && from.stamp == t > 0 && Max(a, Below(log, t)) + from.count == k
            && Below(log, TopOfSecond(t)) <= Below(log, t) < k <= Below(log, t + 1)
  {
    hide Ordered, Below, AnchorAfter, TopOfSecond;
    FirstAnchor(log, a, k);
    var t := log[k - 1].ts;
    OrderedAt(log, k - 1, k - 1);
    BelowAt(log, t, k - 1);
    BelowAt(log, t + 1, k - 1);
    BelowOrder(log, TopOfSecond(t), t);
  }

  lemma SkippedIn(log: seq<Entry>, from: Anchor, start: nat, hi: nat)
    requires Ordered(log) && from.stamp > 0 && start <= hi <= |log|
    ensures Ordered(log[start..hi])
    ensures Skipped(log[start..hi], from) ==
              Min(Clamp(Below(log, from.stamp), start, hi) - start + from.count,
                  Clamp(Below(log, from.stamp + 1), start, hi) - start)
  {
    hide Ordered, Below, Clamp;
    BelowSlice(log, start, hi, from.stamp);
    BelowSlice(log, start, hi, from.stamp + 1);
  }

  /** How much of its window a re-read skips. */
  lemma SkipCount(log: seq<Entry>, a: nat, k: nat, start: nat, upto: nat)
    requires Ordered(log) && a < k <= |log| && upto <= |log| && start == Below(log, TopOfSecond(log[k - 1].ts))
    ensures var from, hi, p := AnchorAfter(log[a..k], ZERO), Max(start, upto), ResumePoint(log, a, k);
            && from.stamp == log[k - 1].ts > 0 && start <= p <= |log|
            && Ordered(log[start..hi])
            && start + Skipped(log[start..hi], from) == Min(p, hi)
  {
    hide Ordered, Below, AnchorAfter, TopOfSecond, Skipped, Min, Clamp;
    AnchorPlace(log, a, k);
    var from, hi := AnchorAfter(log[a..k], ZERO), Max(start, upto);
    SkippedIn(log, from, start, hi);
    SkipArithmetic(Below(log, from.stamp), Below(log, from.stamp + 1), start, hi, a, k, from.count);
  }

  lemma SkipArithmetic(g: nat, h: nat, start: nat, hi: nat, a: nat, k: nat, count: nat)
    requires start <= g < k <= h && start <= hi && Max(a, g) + count == k
    ensures start <= g + k - Max(a, g)
    ensures start + Min(Clamp(g, start, hi) - start + count, Clamp(h, start, hi) - start) == Min(g + k - Max(a, g), hi)
  {
  }

  /** The resume point, reached through the window of the re-read. */
  lemma WindowSkips(log: seq<Entry>, a: nat, k: nat, upto: nat)
    requires Ordered(log) && a < k <= |log| && upto <= |log|
    ensures var from := AnchorAfter(log[a..k], ZERO);
            var es := Window(log, from, upto);
            var p := ResumePoint(log, a, k);
            && Ordered(es) && p <= |log|
            && es[Skipped(es, from)..] == log[p..Max(p, upto)]
  {
    hide Ordered, Below, AnchorAfter, TopOfSecond, Skipped, ResumePoint;
    SkipCount(log, a, k, Below(log, TopOfSecond(log[k - 1].ts)), upto);
  }

  /** A resumed pass after a first pass over [a, k): it forwards the log from the resume point on. */
  lemma ResumeForwards(log: seq<Entry>, a: nat, k: nat, lines: seq<Line>, upto: nat)
    requires Ordered(log) && a <= k <= |log| && upto <= |log|
    requires Stamps(lines) == Window(log, AnchorAfter(log[a..k], ZERO), upto)
    ensures var p := ResumePoint(log, a, k);
            p <= |log| && Stamps(Fresh(lines, AnchorAfter(log[a..k], ZERO))) == log[p..Max(p, upto)]
  {
    hide Ordered, Below, AnchorAfter, Fresh, Stamps;
    if k == a {
      EmptyPass(ZERO);
      assert log[a..k] == [];
      OrderedSlice(log, 0, upto);
    } else {
      hide Window, ResumePoint, Skipped;
      WindowSkips(log, a, k, upto);
    }
    FreshIsSuffix(lines, AnchorAfter(log[a..k], ZERO));
  }

  /**
   Two passes deliver each entry once and in order exactly when the first one
   opened no later than the group of its last entry, or, if it delivered
   nothing, when it opened at the top of the log.
   */
  lemma ResumeExactIff(log: seq<Entry>, a: nat, k: nat, first: seq<Line>, second: seq<Line>, upto: nat)
    requires Ordered(log) && a <= k <= upto <= |log|
    requires Stamps(first) == log[a..k]
    requires Stamps(second) == Window(log, AnchorAfter(log[a..k], ZERO), upto)
    ensures Stamps(Fresh(first, ZERO)) == log[a..k]
    ensures Stamps(Fresh(first, ZERO)) + Stamps(Fresh(second, AnchorAfter(log[a..k], ZERO))) == log[a..upto]
       <==> if k == a then a == 0 else a <= Below(log, log[k - 1].ts)
  {
    hide Ordered, Below, AnchorAfter, Fresh, Stamps, TopOfSecond, Window;
    OrderedSlice(log, a, k);
    FreshIsSuffix(first, ZERO);
    ResumeForwards(log, a, k, second, upto);
    if k > a {
      BelowAt(log, log[k - 1].ts, k - 1);
    }
    var p := ResumePoint(log, a, k);
    if p == k {
      assert log[a..k] + log[k..upto] == log[a..upto];
    } else {
      assert |log[a..k] + log[p..Max(p, upto)]| > |log[a..upto]|;
    }
  }

  /** All lines of a pass are stamped: what it sends is the texts of its entries. */
  lemma {:induction false} StampedTexts(lines: seq<Line>)
    requires forall line :: line in lines ==> line.Stamped?
    ensures |Stamps(lines)| == |lines| && Chunks(lines) == Texts(Stamps(lines))
  {
    hide Stamps;
    if lines == [] {
      EmptyPass(ZERO);
    } else {
      var init, line := lines[..|lines| - 1], lines[|lines| - 1];
      assert lines == init + [line];
      StampedTexts(init);
      StampsAppend(init, line);
      ChunksAppend(init, line);
      var es, e := Stamps(init), line.entry;
      assert Texts(es + [e]) == Texts(es) + [Chunk(line)];
    }
  }

  /** A pass forwards lines of its source, and no more of them. */
  lemma {:induction false} FreshLines(lines: seq<Line>, from: Anchor)
    ensures |Fresh(lines, from)| <= |lines| && forall line :: line in Fresh(lines, from) ==> line in lines
  {
    hide Track, Delivered;
    if lines != [] {
      FreshLines(lines[..|lines| - 1], from);
    }
  }

  /** What a stream with one re-read sends is the texts of the log, once and in order, under the same condition. */
  lemma StreamTexts(log: seq<Entry>, a: nat, k: nat, upto: nat, first: seq<Line>, second: seq<Line>)
    requires ReadsLog(log, a, k, upto, first, second)
    ensures AfterPass(first, ZERO) == AnchorAfter(log[a..k], ZERO) && |Fresh(first, ZERO)| == k - a
    ensures |Fresh(second, AfterPass(first, ZERO))| <= |second|
    ensures Chunks(Fresh(first, ZERO)) + Chunks(Fresh(second, AfterPass(first, ZERO))) == Texts(log[a..upto]) <==>
            if k == a then a == 0 else a <= Below(log, log[k - 1].ts)
  {
    hide Fresh, Stamps, AnchorAfter, Ordered, Below, Window, TopOfSecond, Chunk;
    ResumeExactIff(log, a, k, first, second, upto);
    var from := AnchorAfter(log[a..k], ZERO);
    var one, two := Fresh(first, ZERO), Fresh(second, from);
    FreshLines(first, ZERO);
    FreshLines(second, from);
    StampedTexts(one);
    StampedTexts(two);
    assert Texts(Stamps(one)) + Texts(Stamps(two)) == Texts(Stamps(one) + Stamps(two));
    if Texts(Stamps(one) + Stamps(two)) == Texts(log[a..upto]) {
      assert |Texts(Stamps(one) + Stamps(two))| == |Texts(log[a..upto])|;
    }
    ResumeLength(log, a, k, first, second, upto);
  }

  lemma StreamDelivers(first: seq<Line>, again: Option<Source>, sends: nat)
    ensures again.Some? ==>
              forall log: seq<Entry>, a: nat, k: nat, upto: nat ::
                ReadsLog(log, a, k, upto, first, again.value.lines) && k - a + |again.value.lines| <= sends ==>
                  var more := Fresh(again.value.lines, AfterPass(first, ZERO));
                  && |Fresh(first, ZERO)| + |more| <= sends
                  && (Chunks(Fresh(first, ZERO)) + Chunks(more) == Texts(log[a..upto]) <==>
                      if k == a then a == 0 else a <= Below(log, log[k - 1].ts))
  {
    hide Fresh, Stamps, AnchorAfter, Ordered, Below, Window, TopOfSecond, Chunks, Texts;
    if again.Some? {
      forall log: seq<Entry>, a: nat, k: nat, upto: nat | ReadsLog(log, a, k, upto, first, again.value.lines)
        ensures var more := Fresh(again.value.lines, AfterPass(first, ZERO));
                && |Fresh(first, ZERO)| + |more| <= k - a + |again.value.lines|
                && (Chunks(Fresh(first, ZERO)) + Chunks(more) == Texts(log[a..upto]) <==>
                    if k == a then a == 0 else a <= Below(log, log[k - 1].ts))
      {
        StreamTexts(log, a, k, upto, first, again.value.lines);
      }
    }
  }

  /** When it is not exact, more is delivered than there is. */
  lemma ResumeLength(log: seq<Entry>, a: nat, k: nat, first: seq<Line>, second: seq<Line>, upto: nat)
    requires Ordered(log) && a <= k <= upto <= |log|
    requires Stamps(first) == log[a..k]
    requires Stamps(second) == Window(log, AnchorAfter(log[a..k], ZERO), upto)
    ensures |Stamps(Fresh(first, ZERO))| + |Stamps(Fresh(second, AnchorAfter(log[a..k], ZERO)))| == upto - a ==>
              if k == a then a == 0 else a <= Below(log, log[k - 1].ts)
  {
    hide Ordered, Below, AnchorAfter, Fresh, Stamps, TopOfSecond, Window;
    OrderedSlice(log, a, k);
    FreshIsSuffix(first, ZERO);
    ResumeForwards(log, a, k, second, upto);
    if k > a {
      BelowAt(log, log[k - 1].ts, k - 1);
    }
  }

  /** One more pass under a right anchor goes on where the last one stopped, and leaves a right anchor. */
  lemma NextPass(log: seq<Entry>, a: nat, k: nat, from: Anchor, lines: seq<Line>, upto: nat)
    requires Ordered(log) && AnchorAt(log, a, k, from) && upto <= |log|
    requires Stamps(lines) == Window(log, from, upto)
    ensures Stamps(Fresh(lines, from)) == log[k..Max(k, upto)]
    ensures AnchorAt(log, a, Max(k, upto), AnchorAfter(Stamps(Fresh(lines, from)), from))
  {
    hide Ordered, Below, AnchorAfter, Fresh, Stamps, TopOfSecond, Window;
    if k == a {
      EmptyPass(ZERO);
    } else {
      FirstAnchor(log, a, k);
    }
    assert from == AnchorAfter(log[a..k], ZERO);
    ResumeForwards(log, a, k, lines, upto);
    var m := Max(k, upto);
    if k < m {
      NextAnchor(log, a, k, from, m);
    } else {
      EmptyPass(from);
    }
  }

  lemma NextAnchor(log: seq<Entry>, a: nat, k: nat, from: Anchor, m: nat)
    requires Ordered(log) && AnchorAt(log, a, k, from) && k < m <= |log|
    ensures AnchorAt(log, a, m, AnchorAfter(log[k..m], from))
  {
    hide Ordered, Below, AnchorAfter;
    var last := log[m - 1].ts;
    BelowSlice(log, k, m, last);
    AnchorOf(log[k..m], from);
    BelowAt(log, last, m - 1);
    OrderedAt(log, m - 1, m - 1);
    if k > a {
      OrderedAt(log, k - 1, m - 1);
      BelowAt(log, last, k - 1);
    }
  }

  /** Each pass reads the window of the anchor the one before it left. */
  ghost predicate Resumes(log: seq<Entry>, from: Anchor, passes: seq<seq<Line>>, ends: seq<nat>)
    decreases |passes|
  {
    |passes| == |ends| &&
    (passes != [] ==>
       && ends[0] <= |log|
       && Stamps(passes[0]) == Window(log, from, ends[0])
       && Resumes(log, AfterPass(passes[0], from), passes[1..], ends[1..]))
  }

  /** All that the passes forward. */
  function Forwarded(passes: seq<seq<Line>>, from: Anchor): seq<Entry> {
    if passes == [] then []
    else Stamps(Fresh(passes[0], from)) + Forwarded(passes[1..], AfterPass(passes[0], from))
  }

  /** The furthest point any of the passes got to. */
  function Reach(k: nat, ends: seq<nat>): nat
    decreases |ends|
  {
    if ends == [] then k else Reach(Max(k, ends[0]), ends[1..])
  }

  /** Any number of resumed passes deliver the rest of the log up to the furthest point, once and in order. */
  lemma {:induction false} PassesExact(log: seq<Entry>, a: nat, k: nat, from: Anchor,
                                       passes: seq<seq<Line>>, ends: seq<nat>)
    requires Ordered(log) && AnchorAt(log, a, k, from) && Resumes(log, from, passes, ends)
    ensures k <= Reach(k, ends) <= |log|
    ensures Forwarded(passes, from) == log[k..Reach(k, ends)]
    decreases |passes|
  {
    hide Ordered, AnchorAt, Window, Fresh, Stamps, AnchorAfter;
    AnchorBounds(log, a, k, from);
    if passes != [] {
      NextPass(log, a, k, from, passes[0], ends[0]);
      var m := Max(k, ends[0]);
      PassesExact(log, a, m, AfterPass(passes[0], from), passes[1..], ends[1..]);
      assert log[k..m] + log[m..Reach(k, ends)] == log[k..Reach(k, ends)];
    }
  }

  lemma AnchorBounds(log: seq<Entry>, a: nat, k: nat, from: Anchor)
    requires AnchorAt(log, a, k, from)
    ensures a <= k <= |log|
  {
  }

  /** A first pass from the start of a group, then any number of resumed ones: each entry once, in order. */
  lemma StreamExact(log: seq<Entry>, a: nat, k: nat, first: seq<Line>, passes: seq<seq<Line>>, ends: seq<nat>)
    requires Ordered(log) && a <= k <= |log|
    requires k == a ==> a == 0
    requires a < |log| ==> a == Below(log, log[a].ts)
    requires Stamps(first) == log[a..k]
    requires Resumes(log, AfterPass(first, ZERO), passes, ends)
    ensures k <= Reach(k, ends) <= |log|
    ensures Forwarded([first] + passes, ZERO) == log[a..Reach(k, ends)]
  {
    hide Ordered, Below, Window, Fresh, Stamps, AnchorAfter, Resumes, Reach;
    OrderedSlice(log, a, k);
    FreshIsSuffix(first, ZERO);
    if k == a {
      EmptyPass(ZERO);
    } else {
      FirstAnchor(log, a, k);
      OrderedAt(log, a, k - 1);
      BelowOrder(log, log[a].ts, log[k - 1].ts);
    }
    PassesExact(log, a, k, AfterPass(first, ZERO), passes, ends);
    assert ([first] + passes)[1..] == passes;
    assert log[a..k] + log[k..Reach(k, ends)] == log[a..Reach(k, ends)];
  }

  // First windows that open inside a log, as a tail request does

  const X := Entry(5, "x")
  const Y := Entry(5, "y")
  const Z := Entry(6, "z")

  /** A tail of one line breaks inside the group of its instant, and the re-read sends the line again. */
  lemma DuplicatedInstance(first: seq<Line>, second: seq<Line>)
    requires first == [Stamped(Y)] && second == [Stamped(X), Stamped(Y)]
    ensures ReadsLog([X, Y], 1, 2, 2, first, second) && Resumes([X, Y], AfterPass(first, ZERO), [second], [2])
    ensures Forwarded([first, second], ZERO) == [Y, Y]
  {
    hide Fresh, Stamps, AnchorAfter, Ordered, Below, Forwarded, TopOfSecond;
    OneStamp(Y);
    assert AfterPass(first, ZERO) == Anchor(5, 1);
    TwoStamps(X, Y);
    TwoForwarded(first, second);
    FreshIsSuffix(second, Anchor(5, 1));
    BelowIs([X, Y], 5, 0);
    BelowIs([X, Y], 6, 2);
    BelowIs([X, Y], 0, 0);
    FirstSecond(5);
    assert [X, Y][1..2] == [Y] && Window([X, Y], Anchor(5, 1), 2) == [X, Y];
    assert [second][1..] == [] && [2][1..] == [];
    assert [X, Y][Skipped([X, Y], Anchor(5, 1))..] == [Y];
    assert [Y] + [Y] == [Y, Y];
  }

  /** A tail that breaks before its first line is re-read from the top of the log. */
  lemma WholeLogInstance(second: seq<Line>)
    requires second == [Stamped(X), Stamped(Z)]
    ensures Stamps([]) == [X, Z][1..1]
    ensures Stamps(second) == Window([X, Z], AfterPass([], ZERO), 2)
    ensures Forwarded([[], second], ZERO) == [X, Z] != [X, Z][1..]
  {
    hide Fresh, Stamps, AnchorAfter, Ordered, Below, Forwarded;
    EmptyPass(ZERO);
    TwoStamps(X, Z);
    TwoForwarded([], second);
    FreshIsSuffix(second, ZERO);
  }

  lemma OneStamp(e: Entry)
    requires e.ts > 0
    ensures Fresh([Stamped(e)], ZERO) == [Stamped(e)] && Stamps([Stamped(e)]) == [e]
    ensures AnchorAfter([e], ZERO) == Anchor(e.ts, 1)
  {
    hide *;
    EmptyPass(ZERO);
    assert [] + [Stamped(e)] == [Stamped(e)] && [] + [e] == [e];
    FreshAppend([], Stamped(e), ZERO);
    NothingDropped([Stamped(e)]);
    StampsAppend([], Stamped(e));
    AnchorAppend([], e, ZERO);
    FirstAdvance(e.ts);
  }

  lemma NothingDropped(lines: seq<Line>)
    requires lines != []
    ensures !Dropped(lines, ZERO)
  {
  }

  lemma FirstAdvance(ts: nat)
    requires ts > 0
    ensures Advance(ZERO, ts) == Anchor(ts, 1)
  {
  }

  lemma FirstSecond(ts: nat)
    requires ts < SECOND
    ensures TopOfSecond(ts) == 0
  {
  }

  lemma TwoStamps(d: Entry, e: Entry)
    requires 0 < d.ts <= e.ts
    ensures Stamps([Stamped(d), Stamped(e)]) == [d, e] && Ordered([d, e])
  {
    hide Stamps;
    OneStamp(d);
    assert [Stamped(d)] + [Stamped(e)] == [Stamped(d), Stamped(e)];
    StampsAppend([Stamped(d)], Stamped(e));
  }

  lemma TwoForwarded(first: seq<Line>, second: seq<Line>)
    ensures Forwarded([first, second], ZERO) ==
              Stamps(Fresh(first, ZERO)) + Stamps(Fresh(second, AfterPass(first, ZERO)))
  {
    hide Fresh, Stamps, AfterPass;
    assert [first, second][1..] == [second] && [second][1..] == [];
    var from := AfterPass(first, ZERO);
    assert Forwarded([second], from) == Stamps(Fresh(second, from));
  }
}
