/**
 * The change-feed watcher: the reader loop that filters feed events by sequence
 * number and re-arms the single pending reload, and the guard that starts it once.
 */
module ChangeFeed {
  import opened Wrappers

  /** The C# `int` a sequence number is read as. */
  newtype Int32 = x: int | -0x8000_0000 <= x < 0x8000_0000

  /** One line read from the feed: blank (null or white space, a heartbeat), an
      object with or without an integer `seq` property, or a line that the JSON
      parser or the integer conversion of `seq` rejects. */
  datatype FeedLine = Blank | Change(sequence: Option<Int32>) | Malformed

  /** One connection attempt: refused (connecting failed), or opened, delivering
      these lines before the stream ended or a read failed. */
  datatype Attempt = Refused | Opened(lines: seq<FeedLine>)

  /** The lines an attempt delivers. */
  function LinesOf(a: Attempt): seq<FeedLine> {
    if a.Opened? then a.lines else []
  }

  /** Every line delivered over the attempts, in order. */
  function Feed(attempts: seq<Attempt>): seq<FeedLine>
    decreases |attempts|
  {
    if attempts == [] then [] else LinesOf(attempts[0]) + Feed(attempts[1..])
  }

  /** Some line is malformed. */
  predicate Faults(lines: seq<FeedLine>) {
    Malformed in lines
  }

  /** The lines before the first malformed one. */
  function UpToFault(lines: seq<FeedLine>): seq<FeedLine>
    decreases |lines|
  {
    if lines == [] || lines[0].Malformed? then [] else [lines[0]] + UpToFault(lines[1..])
  }

  /** The sequence number a line carries, if any. */
  function SeqOf(l: FeedLine): Option<int> {
    if l.Change? && l.sequence.Some? then Some(l.sequence.value as int) else None
  }

  /** The filter's last sequence number after the lines, starting from `base`. */
  function MaxSeen(base: int, lines: seq<FeedLine>): int
    decreases |lines|
  {
    if lines == [] then base
    else
      var m := MaxSeen(base, lines[..|lines| - 1]);
      match SeqOf(lines[|lines| - 1])
      case Some(v) => if v > m then v else m
      case None => m
  }

  /** The sequence numbers the filter accepts from the lines, in order, starting from `base`. */
  function Accepted(base: int, lines: seq<FeedLine>): seq<int>
    decreases |lines|
  {
    if lines == [] then []
    else
      var init := lines[..|lines| - 1];
      Accepted(base, init) +
      match SeqOf(lines[|lines| - 1])
      case Some(v) => if v > MaxSeen(base, init) then [v] else []
      case None => []
  }

  /** `v` is above `base` and above every sequence number among the lines. */
  ghost predicate Exceeds(v: int, base: int, lines: seq<FeedLine>) {
    base < v && forall j :: 0 <= j < |lines| && SeqOf(lines[j]).Some? ==> SeqOf(lines[j]).value < v
  }

  /** The last sequence number is the largest of `base` and every number seen. */
  lemma {:induction false} MaxSeenBound(base: int, lines: seq<FeedLine>, v: int)
    ensures MaxSeen(base, lines) < v <==> Exceeds(v, base, lines)
    decreases |lines|
  {
    if lines != [] {
      var init := lines[..|lines| - 1];
      MaxSeenBound(base, init, v);
      assert forall j :: 0 <= j < |init| ==> init[j] == lines[j];
    }
  }

  /** A line is accepted exactly when its sequence number exceeds the start value and
      every sequence number before it. */
  lemma AcceptedExactly(base: int, lines: seq<FeedLine>, l: FeedLine)
    ensures Accepted(base, lines + [l]) ==
      if SeqOf(l).Some? && Exceeds(SeqOf(l).value, base, lines) then Accepted(base, lines) + [SeqOf(l).value]
      else Accepted(base, lines)
  {
    assert (lines + [l])[..|lines|] == lines;
    if SeqOf(l).Some? {
      MaxSeenBound(base, lines, SeqOf(l).value);
    }
  }

  /** The numbers are strictly increasing. */
  ghost predicate Increasing(s: seq<int>) {
    forall i, j :: 0 <= i < j < |s| ==> s[i] < s[j]
  }

  /** Accepted numbers are strictly increasing and above the start value, and the last
      sequence number is the last accepted one, or the start value when none was. */
  lemma {:induction false} AcceptedIncreasing(base: int, lines: seq<FeedLine>)
    ensures var acc := Accepted(base, lines);
      && Increasing(acc)
      && (forall i :: 0 <= i < |acc| ==> base < acc[i])
      && MaxSeen(base, lines) == (if acc == [] then base else acc[|acc| - 1])
    decreases |lines|
  {
    if lines != [] {
      var init, l := lines[..|lines| - 1], lines[|lines| - 1];
      AcceptedIncreasing(base, init);
      var acc0, m := Accepted(base, init), MaxSeen(base, init);
      if SeqOf(l).Some? && SeqOf(l).value > m {
        assert Accepted(base, lines) == acc0 + [SeqOf(l).value];
        assert MaxSeen(base, lines) == SeqOf(l).value;
        IncreasingSnoc(base, acc0, SeqOf(l).value);
      } else {
        assert Accepted(base, lines) == acc0;
        assert MaxSeen(base, lines) == m;
      }
    }
  }

  /** A number above the last (or above `base`, when there is none) extends an
      increasing sequence above `base`. */
  lemma IncreasingSnoc(base: int, s: seq<int>, v: int)
    requires Increasing(s) && forall i :: 0 <= i < |s| ==> base < s[i]
    requires v > (if s == [] then base else s[|s| - 1])
    ensures Increasing(s + [v]) && forall i :: 0 <= i < |s + [v]| ==> base < (s + [v])[i]
  {
    var t := s + [v];
    forall i | 0 <= i < |s| ensures t[i] < v {
      assert t[i] == s[i];
      if i < |s| - 1 { assert s[i] < s[|s| - 1]; }
    }
  }

  /** The last sequence number never decreases as lines arrive. */
  lemma {:induction false} MaxSeenMonotone(base: int, lines: seq<FeedLine>, i: nat)
    requires i <= |lines|
    ensures base <= MaxSeen(base, lines[..i]) <= MaxSeen(base, lines)
    decreases |lines|
  {
    if i < |lines| {
      var init := lines[..|lines| - 1];
      assert init[..i] == lines[..i];
      MaxSeenMonotone(base, init, i);
    } else {
      assert lines[..i] == lines;
      MaxSeenAtLeastBase(base, lines);
    }
  }

  lemma {:induction false} MaxSeenAtLeastBase(base: int, lines: seq<FeedLine>)
    ensures base <= MaxSeen(base, lines)
    decreases |lines|
  {
    if lines != [] {
      MaxSeenAtLeastBase(base, lines[..|lines| - 1]);
    }
  }

  /** Lines without a sequence number, or with one not above the last, change nothing:
      an event redelivered after a reconnect is ignored. */
  lemma {:induction false} StaleLinesIgnored(base: int, lines: seq<FeedLine>, more: seq<FeedLine>)
    requires forall j :: 0 <= j < |more| && SeqOf(more[j]).Some? ==> SeqOf(more[j]).value <= MaxSeen(base, lines)
    ensures Accepted(base, lines + more) == Accepted(base, lines)
    ensures MaxSeen(base, lines + more) == MaxSeen(base, lines)
    decreases |more|
  {
    if more != [] {
      var more' := more[..|more| - 1];
      var all := lines + more;
      assert all[..|all| - 1] == lines + more';
      assert all[|all| - 1] == more[|more| - 1];
      StaleLinesIgnored(base, lines, more');
    } else {
      assert lines + more == lines;
    }
  }

  /** One more line that is not malformed: what the filter does with it. */
  lemma Step(base: int, seen: seq<FeedLine>, s: FeedLine)
    requires !Faults(seen) && !s.Malformed?
    ensures !Faults(seen + [s])
    ensures var m := MaxSeen(base, seen);
      if SeqOf(s).Some? && SeqOf(s).value > m then
        MaxSeen(base, seen + [s]) == SeqOf(s).value && Accepted(base, seen + [s]) == Accepted(base, seen) + [SeqOf(s).value]
      else
        MaxSeen(base, seen + [s]) == m && Accepted(base, seen + [s]) == Accepted(base, seen)
  {
    var seen' := seen + [s];
    assert seen'[..|seen|] == seen;
    forall g | 0 <= g < |seen'| ensures !seen'[g].Malformed? {
      if g < |seen| { assert seen'[g] == seen[g]; }
    }
  }

  /** Lines before the first malformed one pass through; the malformed one ends the feed. */
  lemma {:induction false} UpToFaultAppend(xs: seq<FeedLine>, ys: seq<FeedLine>)
    requires !Faults(xs)
    ensures UpToFault(xs + ys) == xs + UpToFault(ys)
    decreases |xs|
  {
    if xs != [] {
      assert (xs + ys)[1..] == xs[1..] + ys;
      assert !Faults(xs[1..]) by {
        forall i | 0 <= i < |xs[1..]| ensures !xs[1..][i].Malformed? {
          assert xs[1..][i] == xs[i + 1];
        }
      }
      UpToFaultAppend(xs[1..], ys);
    } else {
      assert xs + ys == ys;
    }
  }

  /** The slots `0` to `n - 1`, in order. */
  function Slots(n: nat): seq<nat>
    decreases n
  {
    if n == 0 then [] else Slots(n - 1) + [n - 1]
  }

  /** The reader's state after the lines `seen`: the last sequence number and the
      accepted ones, and one reload slot per accepted event, numbered in order, of
      which the newest is pending and every older one has been disposed. */
  ghost predicate Tracks(seen: seq<FeedLine>, lastSeq: int, armed: seq<int>, pending: Option<nat>, disposed: seq<nat>) {
    && lastSeq == MaxSeen(0, seen)
    && armed == Accepted(0, seen)
    && pending == (if armed == [] then None else Some(|armed| - 1))
    && disposed == (if armed == [] then [] else Slots(|armed| - 1))
  }

  /** The reader's local state: the last sequence number, the accepted numbers (one
      reload slot each, numbered in order), the pending slot, the slots disposed so
      far, and whether a malformed line has ended the loop. */
  datatype Reader = Reader(lastSeq: int, armed: seq<int>, pending: Option<nat>, disposed: seq<nat>, faulted: bool)

  /** Before the first line: `lastSeq` is 0 and nothing is pending. */
  const Start := Reader(0, [], None, [], false)

  /** What the reader does with one line. */
  function Read(r: Reader, l: FeedLine): Reader {
    if r.faulted then r
    else if l.Malformed? then r.(faulted := true)
    else match SeqOf(l)
      case Some(v) =>
        if v > r.lastSeq then
          Reader(v, r.armed + [v], Some(|r.armed|),
                 if r.pending.Some? then r.disposed + [r.pending.value] else r.disposed, false)
        else r
      case None => r
  }

  /** The reader after the lines, in order. */
  function ReadAll(r: Reader, lines: seq<FeedLine>): Reader
    decreases |lines|
  {
    if lines == [] then r else ReadAll(Read(r, lines[0]), lines[1..])
  }

  /** A reader that has faulted stays as it is. */
  lemma {:induction false} FaultedStays(r: Reader, lines: seq<FeedLine>)
    requires r.faulted
    ensures ReadAll(r, lines) == r
    decreases |lines|
  {
    if lines != [] {
      FaultedStays(r, lines[1..]);
    }
  }

  /** Reading two pieces of the feed one after the other is reading them together. */
  lemma {:induction false} ReadAllAppend(r: Reader, xs: seq<FeedLine>, ys: seq<FeedLine>)
    ensures ReadAll(r, xs + ys) == ReadAll(ReadAll(r, xs), ys)
    decreases |xs|
  {
    if xs == [] {
      assert xs + ys == ys;
    } else {
      assert (xs + ys)[1..] == xs[1..] + ys;
      ReadAllAppend(Read(r, xs[0]), xs[1..], ys);
    }
  }

  /** The reader after the lines is the filter over the lines before the first malformed
      one, and it has faulted exactly when a line was malformed. */
  lemma {:induction false} ReadAllTracks(lines: seq<FeedLine>)
    ensures var r := ReadAll(Start, lines);
      && r.faulted == Faults(lines)
      && Tracks(UpToFault(lines), r.lastSeq, r.armed, r.pending, r.disposed)
    decreases |lines|
  {
    if lines == [] {
      assert UpToFault(lines) == [];
    } else {
      var init, l := lines[..|lines| - 1], lines[|lines| - 1];
      assert lines == init + [l];
      var r0 := ReadAll(Start, init);
      ReadAllTracks(init);
      ReadAllAppend(Start, init, [l]);
      assert ReadAll(Start, lines) == Read(r0, l);
      if Faults(init) {
        FaultPrefix(init, [l]);
        assert Read(r0, l) == r0;
      } else if l.Malformed? {
        FaultAt(init, []);
        assert init + ([Malformed] + []) == lines;
        NoFault(init);
        assert Read(r0, l) == r0.(faulted := true);
      } else {
        NoFault(init);
        ReadTracks(init, r0, l);
        NoFault(lines);
      }
    }
  }

  /** One line that is not malformed moves the reader from the state after `seen` to
      the state after `seen + [l]`. */
  lemma ReadTracks(seen: seq<FeedLine>, r: Reader, l: FeedLine)
    requires !Faults(seen) && !r.faulted && !l.Malformed?
    requires Tracks(seen, r.lastSeq, r.armed, r.pending, r.disposed)
    ensures !Faults(seen + [l]) && !Read(r, l).faulted
    ensures var r' := Read(r, l); Tracks(seen + [l], r'.lastSeq, r'.armed, r'.pending, r'.disposed)
  {
    Step(0, seen, l);
  }

  /** The reader loop over the attempts: the filter over the feed's lines up to the
      first malformed one, with the reload slots it creates and disposes; a malformed
      line ends the loop for good. `lastSeq` and the pending slot persist across
      reconnects. */
  method ReaderContinuation(attempts: seq<Attempt>) returns (r: Reader)
    ensures r == ReadAll(Start, Feed(attempts))
    ensures r.faulted == Faults(Feed(attempts))
    ensures Tracks(UpToFault(Feed(attempts)), r.lastSeq, r.armed, r.pending, r.disposed)
  {
    var lastSeq: int, armed: seq<int>, pending: Option<nat>, disposed: seq<nat> := 0, [], None, [];
    var a := 0;
    while a < |attempts|
      invariant 0 <= a <= |attempts|
      invariant ReadAll(Start, Feed(attempts)) == ReadAll(Reader(lastSeq, armed, pending, disposed, false), Feed(attempts[a..]))
    {
      ghost var cur := Reader(lastSeq, armed, pending, disposed, false);
      ghost var rest := Feed(attempts[a + 1..]);
      assert attempts[a..][1..] == attempts[a + 1..];
      assert Feed(attempts[a..]) == LinesOf(attempts[a]) + rest;
      ReadAllAppend(cur, LinesOf(attempts[a]), rest);
      if attempts[a].Opened? {
        var after := ReadStream(attempts[a].lines, lastSeq, armed, pending, disposed);
        if after.faulted {
          FaultedStays(after, rest);
          ReadAllTracks(Feed(attempts));
          return after;
        }
        lastSeq, armed, pending, disposed := after.lastSeq, after.armed, after.pending, after.disposed;
      }
      a := a + 1;
    }
    assert attempts[a..] == [];
    r := Reader(lastSeq, armed, pending, disposed, false);
    ReadAllTracks(Feed(attempts));
  }

  /** The read loop over one opened stream, continuing from the reader's state:
      blank lines are skipped, an accepted event re-arms the pending slot, and the
      first malformed line ends the loop. */
  method ReadStream(lines: seq<FeedLine>, lastSeq0: int, armed0: seq<int>, pending0: Option<nat>, disposed0: seq<nat>)
    returns (r: Reader)
    ensures r == ReadAll(Reader(lastSeq0, armed0, pending0, disposed0, false), lines)
  {
    var lastSeq: int, armed: seq<int>, pending: Option<nat>, disposed: seq<nat> := lastSeq0, armed0, pending0, disposed0;
    var i := 0;
    while i < |lines|
      invariant 0 <= i <= |lines|
      invariant ReadAll(Reader(lastSeq0, armed0, pending0, disposed0, false), lines)
             == ReadAll(Reader(lastSeq, armed, pending, disposed, false), lines[i..])
    {
      var s := lines[i];
      assert lines[i..][1..] == lines[i + 1..];
      if s.Malformed? {
        FaultedStays(Reader(lastSeq, armed, pending, disposed, true), lines[i + 1..]);
        return Reader(lastSeq, armed, pending, disposed, true);
      }
      if s.Change? && s.sequence.Some? && s.sequence.value as int > lastSeq {
        lastSeq := s.sequence.value as int;
        if pending.Some? {
          disposed := disposed + [pending.value];
        }
        pending := Some(|armed|);
        armed := armed + [lastSeq];
      }
      i := i + 1;
    }
    r := Reader(lastSeq, armed, pending, disposed, false);
  }

  /** A burst with a heartbeat and a duplicate: only events 1 and 2 are accepted, the
      slot armed by event 1 is disposed, and the pending reload is the one event 2 armed. */
  lemma {:induction false} DuplicateInBurst()
    ensures ReadAll(Start, [Change(Some(1)), Blank, Change(Some(1)), Change(Some(2))])
         == Reader(2, [1, 2], Some(1), [0], false)
  {
    var lines := [Change(Some(1)), Blank, Change(Some(1)), Change(Some(2))];
    var r1 := Reader(1, [1], Some(0), [], false);
    assert Read(Start, lines[0]) == r1;
    assert lines[1..][1..][1..][1..] == [];
    assert ReadAll(Start, lines) == ReadAll(r1, lines[1..]);
    assert ReadAll(r1, lines[1..]) == ReadAll(r1, lines[1..][1..]);
    assert ReadAll(r1, lines[1..][1..]) == ReadAll(r1, lines[1..][1..][1..]);
  }

  /** A connection severed after event 1, a refused attempt, and a new connection that
      redelivers event 1 before event 2: event 1 is not processed twice. */
  lemma {:induction false} RedeliveryAfterReconnect()
    ensures Feed([Opened([Change(Some(1))]), Refused, Opened([Change(Some(1)), Change(Some(2))])])
         == [Change(Some(1)), Change(Some(1)), Change(Some(2))]
    ensures ReadAll(Start, [Change(Some(1)), Change(Some(1)), Change(Some(2))])
         == Reader(2, [1, 2], Some(1), [0], false)
  {
    var attempts := [Opened([Change(Some(1))]), Refused, Opened([Change(Some(1)), Change(Some(2))])];
    assert attempts[1..][1..][1..] == [];
    var lines := [Change(Some(1)), Change(Some(1)), Change(Some(2))];
    var r1 := Reader(1, [1], Some(0), [], false);
    assert lines[1..][1..][1..] == [];
    assert ReadAll(Start, lines) == ReadAll(r1, lines[1..]);
    assert ReadAll(r1, lines[1..]) == ReadAll(r1, lines[1..][1..]);
  }

  /** Without a malformed line, every line passes. */
  lemma NoFault(lines: seq<FeedLine>)
    requires !Faults(lines)
    ensures UpToFault(lines) == lines
  {
    UpToFaultAppend(lines, []);
    assert lines + [] == lines;
  }

  /** Whatever follows a malformed line is cut off. */
  lemma {:induction false} FaultPrefix(xs: seq<FeedLine>, ys: seq<FeedLine>)
    requires Faults(xs)
    ensures UpToFault(xs + ys) == UpToFault(xs)
    decreases |xs|
  {
    if !xs[0].Malformed? {
      var k :| 0 <= k < |xs| && xs[k].Malformed?;
      assert xs[1..][k - 1].Malformed?;
      assert (xs + ys)[1..] == xs[1..] + ys;
      FaultPrefix(xs[1..], ys);
    }
  }

  /** A malformed line after lines without one ends the feed right there. */
  lemma FaultAt(before: seq<FeedLine>, rest: seq<FeedLine>)
    requires !Faults(before)
    ensures Faults(before + ([Malformed] + rest))
    ensures UpToFault(before + ([Malformed] + rest)) == before
  {
    UpToFaultAppend(before, [Malformed] + rest);
    assert before + [] == before;
    assert (before + ([Malformed] + rest))[|before|].Malformed?;
  }

  /** `CouchDbChangeToken`: the guard that starts the reader loop at most once. */
  class CouchDbChangeToken {
    var running: bool
    /** How many reader loops have been started. */
    var readers: nat

    constructor ()
      ensures !running && readers == 0
    {
      running := false;
      readers := 0;
    }

    /** Starts the reader loop unless it is already running; a second call does nothing. */
    method Run()
      modifies this
      ensures running
      ensures readers == if old(running) then old(readers) else old(readers) + 1
    {
      if running {
        return;
      }
      running := true;
      readers := readers + 1;
    }
  }
}
