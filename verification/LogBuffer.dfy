// Collecting streamed process output into log messages (packages/envd/internal/logs/bufferedEvents.go).
module LogBuffer {

  type Bytes = seq<bv8>

  const MAX_BUFFER_SIZE := 65536

  /** What the loop can wake up for; it ends when the channel closes, that is with the sequence. */
  datatype Event = Tick | Data(bytes: Bytes)

  function Concat(messages: seq<Bytes>): Bytes {
    if messages == [] then [] else Concat(messages[..|messages| - 1]) + messages[|messages| - 1]
  }

  /** Everything received, in order. */
  function Received(events: seq<Event>): Bytes {
    if events == [] then []
    else Received(events[..|events| - 1]) + if events[|events| - 1].Data? then events[|events| - 1].bytes else []
  }

  lemma Regroup(a: Bytes, b: Bytes, c: Bytes)
    ensures (a + b) + c == a + (b + c)
  {
  }

  /** Joining messages and receiving events both go from left to right. */
  lemma {:induction false} ConcatJoins(first: seq<Bytes>, second: seq<Bytes>)
    ensures Concat(first + second) == Concat(first) + Concat(second)
    decreases |second|
  {
    if second == [] {
      assert first + second == first;
    } else {
      var front, last := second[..|second| - 1], second[|second| - 1];
      ConcatJoins(first, front);
      assert (first + second)[..|first + second| - 1] == first + front;
      Regroup(Concat(first), Concat(front), last);
    }
  }

  lemma {:induction false} ReceivedJoins(first: seq<Event>, second: seq<Event>)
    ensures Received(first + second) == Received(first) + Received(second)
    decreases |second|
  {
    if second == [] {
      assert first + second == first;
    } else {
      var front, last := second[..|second| - 1], second[|second| - 1];
      ReceivedJoins(first, front);
      assert (first + second)[..|first + second| - 1] == first + front;
      Regroup(Received(first), Received(front), if last.Data? then last.bytes else []);
    }
  }

  lemma ReceivedPush(events: seq<Event>, e: Event)
    ensures Received(events + [e]) == Received(events) + Extended([], e)
    ensures Received([Tick]) == [] && forall bytes: Bytes :: Received([Data(bytes)]) == bytes
  {
    assert (events + [e])[..|events|] == events;
    assert [Tick][..0] == [];
    forall bytes: Bytes ensures Received([Data(bytes)]) == bytes {
      assert [Data(bytes)][..0] == [];
    }
  }

  function Longest(events: seq<Event>): nat {
    if events == [] then 0
    else
      var before, last := Longest(events[..|events| - 1]), events[|events| - 1];
      if last.Data? && |last.bytes| > before then |last.bytes| else before
  }

  lemma {:induction false} ConcatPush(messages: seq<Bytes>, message: Bytes)
    ensures Concat(messages + [message]) == Concat(messages) + message
  {
    assert (messages + [message])[..|messages|] == messages;
  }

  /** No message is empty, and none exceeds the limit by more than one chunk. */
  predicate Sized(messages: seq<Bytes>, longest: nat) {
    forall k :: 0 <= k < |messages| ==> 0 < |messages[k]| < 65536 + longest
  }

  function Extended(buffer: Bytes, e: Event): Bytes {
    if e.Data? then buffer + e.bytes else buffer
  }

  /** One more event, whether the buffer is kept or emitted. */
  lemma PushReceived(emitted: seq<Bytes>, buffer: Bytes, events: seq<Event>, i: nat)
    requires i < |events| && Concat(emitted) + buffer == Received(events[..i])
    ensures var b := Extended(buffer, events[i]);
            Concat(emitted) + b == Received(events[..i + 1]) && Concat(emitted + [b]) + [] == Received(events[..i + 1])
  {
    assert events[..i + 1][..i] == events[..i];
    var b := Extended(buffer, events[i]);
    ConcatPush(emitted, b);
    assert events[i].Data? ==> Concat(emitted) + b == (Concat(emitted) + buffer) + events[i].bytes;
  }

  lemma PushSized(emitted: seq<Bytes>, buffer: Bytes, events: seq<Event>, i: nat)
    requires i < |events| && |buffer| < MAX_BUFFER_SIZE && Sized(emitted, Longest(events[..i]))
    ensures Sized(emitted, Longest(events[..i + 1]))
    ensures var b := Extended(buffer, events[i]); |b| > 0 ==> Sized(emitted + [b], Longest(events[..i + 1]))
  {
    assert events[..i + 1][..i] == events[..i];
  }

  // ---- Where the messages end ---------------------------------------------------------------

  /** What was received after the first `from` events, up to the first `to`. */
  function Between(events: seq<Event>, from: nat, to: nat): Bytes
    requires from <= to <= |events|
  {
    Received(events[from..to])
  }

  /** Nothing from `from` to `to` ends a message: the limit is not reached, and a tick finds nothing to emit. */
  ghost predicate Uncut(events: seq<Event>, from: nat, to: nat)
    requires from <= to <= |events|
  {
    forall j: nat {:trigger KeepsOn(events, from, j)} :: from < j <= to ==> KeepsOn(events, from, j)
  }

  predicate KeepsOn(events: seq<Event>, from: nat, j: nat)
    requires from < j <= |events|
  {
    |Between(events, from, j)| < 65536 && (events[j - 1].Tick? ==> Between(events, from, j) == [])
  }

  /** The events before the k-th cut; the first cut comes after none. */
  function CutAt(cuts: seq<nat>, k: nat): nat
    requires k <= |cuts|
  {
    if k == 0 then 0 else cuts[k - 1]
  }

  /** The k-th message is what was received between two cuts, and it ends as soon as the limit is reached or a tick
      comes with something to emit. */
  ghost predicate CutMessage(events: seq<Event>, cuts: seq<nat>, emitted: seq<Bytes>, k: nat)
    requires k < |cuts| == |emitted|
  {
    var from, to := CutAt(cuts, k), cuts[k];
    && from < to <= |events|
    && Uncut(events, from, to - 1)
    && !KeepsOn(events, from, to)
    && emitted[k] == Between(events, from, to)
  }

  /** After the first n events: the messages lie between the cuts, and the buffer has what came since the last one. */
  ghost predicate AllCut(events: seq<Event>, n: nat, cuts: seq<nat>, emitted: seq<Bytes>, buffer: Bytes) {
    && |cuts| == |emitted| && CutAt(cuts, |cuts|) <= n <= |events|
    && (forall k: nat {:trigger CutMessage(events, cuts, emitted, k)} :: k < |cuts| ==> CutMessage(events, cuts, emitted, k))
    && Uncut(events, CutAt(cuts, |cuts|), n)
    && buffer == Between(events, CutAt(cuts, |cuts|), n)
  }

  lemma BetweenPush(events: seq<Event>, from: nat, n: nat)
    requires from <= n < |events|
    ensures Between(events, from, n + 1) == Extended(Between(events, from, n), events[n])
  {
    assert events[from..n + 1][..n - from] == events[from..n];
    assert events[from..n + 1] == events[from..n] + [events[n]];
  }

  lemma UncutPush(events: seq<Event>, from: nat, n: nat)
    requires from <= n < |events| && Uncut(events, from, n) && KeepsOn(events, from, n + 1)
    ensures Uncut(events, from, n + 1)
  {
    forall j: nat | from < j <= n + 1 ensures KeepsOn(events, from, j) {
    }
  }

  /** An event that does not end a message. */
  lemma KeepsCut(events: seq<Event>, n: nat, cuts: seq<nat>, emitted: seq<Bytes>, buffer: Bytes)
    requires n < |events| && AllCut(events, n, cuts, emitted, buffer)
    requires var b := Extended(buffer, events[n]); |b| < 65536 && (events[n].Tick? ==> b == [])
    ensures AllCut(events, n + 1, cuts, emitted, Extended(buffer, events[n]))
  {
    BetweenPush(events, CutAt(cuts, |cuts|), n);
    UncutPush(events, CutAt(cuts, |cuts|), n);
  }

  /** An event that ends one. */
  lemma EndsMessage(events: seq<Event>, n: nat, cuts: seq<nat>, emitted: seq<Bytes>, buffer: Bytes)
    requires n < |events| && AllCut(events, n, cuts, emitted, buffer)
    requires var b := Extended(buffer, events[n]); |b| >= 65536 || (events[n].Tick? && b != [])
    ensures AllCut(events, n + 1, cuts + [n + 1], emitted + [Extended(buffer, events[n])], [])
  {
    var from := CutAt(cuts, |cuts|);
    var more, messages := cuts + [n + 1], emitted + [Extended(buffer, events[n])];
    BetweenPush(events, from, n);
    forall k: nat | k < |more| ensures CutMessage(events, more, messages, k) {
      assert CutAt(more, k) == CutAt(cuts, k);
      if k < |cuts| {
        assert CutMessage(events, cuts, emitted, k);
      } else {
        assert !KeepsOn(events, from, n + 1);
      }
    }
    assert events[n + 1..n + 1] == [];
  }

  /** One event: it ends a message, or it does not. */
  lemma CutStep(events: seq<Event>, n: nat, cuts: seq<nat>, emitted: seq<Bytes>, buffer: Bytes) returns (more: seq<nat>)
    requires n < |events| && AllCut(events, n, cuts, emitted, buffer)
    ensures var b := Extended(buffer, events[n]);
            if |b| >= 65536 || (events[n].Tick? && b != []) then AllCut(events, n + 1, more, emitted + [b], [])
            else AllCut(events, n + 1, more, emitted, b)
  {
    var b := Extended(buffer, events[n]);
    if |b| >= 65536 || (events[n].Tick? && b != []) {
      EndsMessage(events, n, cuts, emitted, buffer);
      more := cuts + [n + 1];
    } else {
      KeepsCut(events, n, cuts, emitted, buffer);
      more := cuts;
    }
  }

  /** The messages up to a cut are all that was received before it. */
  lemma {:induction false} CutsJoin(events: seq<Event>, n: nat, cuts: seq<nat>, emitted: seq<Bytes>, buffer: Bytes, k: nat)
    requires AllCut(events, n, cuts, emitted, buffer) && k <= |cuts|
    ensures CutAt(cuts, k) <= |events| && Concat(emitted[..k]) == Received(events[..CutAt(cuts, k)])
  {
    if k > 0 {
      assert CutMessage(events, cuts, emitted, k - 1);
      CutsJoin(events, n, cuts, emitted, buffer, k - 1);
      ReceivedTo(events, CutAt(cuts, k - 1), CutAt(cuts, k));
      assert emitted[..k] == emitted[..k - 1] + [emitted[k - 1]];
      ConcatPush(emitted[..k - 1], emitted[k - 1]);
    }
  }

  lemma ReceivedTo(events: seq<Event>, from: nat, to: nat)
    requires from <= to <= |events|
    ensures Received(events[..to]) == Received(events[..from]) + Between(events, from, to)
  {
    assert events[..to] == events[..from] + events[from..to];
    ReceivedJoins(events[..from], events[from..to]);
  }

  /** Without ticks every message is full. */
  lemma FullWithoutTicks(events: seq<Event>, n: nat, cuts: seq<nat>, emitted: seq<Bytes>, buffer: Bytes)
    requires AllCut(events, n, cuts, emitted, buffer) && forall i :: 0 <= i < |events| ==> events[i].Data?
    ensures forall k :: 0 <= k < |emitted| ==> |emitted[k]| >= 65536
  {
    forall k | 0 <= k < |emitted| ensures |emitted[k]| >= 65536 {
      assert CutMessage(events, cuts, emitted, k);
    }
  }

  /** Some first messages are all that was received before the i-th event. */
  ghost predicate Boundary(events: seq<Event>, emitted: seq<Bytes>, i: nat)
    requires i <= |events|
  {
    exists k: nat :: k <= |emitted| && Concat(emitted[..k]) == Received(events[..i])
  }

  /** The last cut before the i-th event. */
  lemma {:induction false} CutBefore(cuts: seq<nat>, i: nat, m: nat) returns (k: nat)
    requires m <= |cuts| && i <= CutAt(cuts, m)
    ensures k <= m && CutAt(cuts, k) <= i && (k < m ==> i < CutAt(cuts, k + 1))
  {
    k := m;
    while CutAt(cuts, k) > i
      invariant k <= m && (k < m ==> i < CutAt(cuts, k + 1))
      decreases k
    {
      k := k - 1;
    }
  }

  /** A tick that finds nothing to emit comes right after a cut, as far as the text goes. */
  lemma QuietTick(events: seq<Event>, cuts: seq<nat>, emitted: seq<Bytes>, buffer: Bytes, i: nat, k: nat)
    requires AllCut(events, |events|, cuts, emitted, buffer) && i < |events| && events[i].Tick? && k <= |cuts|
    requires CutAt(cuts, k) <= i && KeepsOn(events, CutAt(cuts, k), i + 1)
    ensures Boundary(events, emitted, i)
  {
    CutsJoin(events, |events|, cuts, emitted, buffer, k);
    BetweenPush(events, CutAt(cuts, k), i);
    ReceivedTo(events, CutAt(cuts, k), i);
    assert Concat(emitted[..k]) == Received(events[..i]);
  }

  /** A tick that emits ends a message. */
  lemma EmittingTick(events: seq<Event>, cuts: seq<nat>, emitted: seq<Bytes>, buffer: Bytes, i: nat, k: nat)
    requires AllCut(events, |events|, cuts, emitted, buffer) && i < |events| && events[i].Tick? && k <= |cuts|
    requires CutAt(cuts, k) == i + 1
    ensures Boundary(events, emitted, i)
  {
    CutsJoin(events, |events|, cuts, emitted, buffer, k);
    assert events[..i + 1] == events[..i] + [Tick];
    ReceivedPush(events[..i], Tick);
    assert Concat(emitted[..k]) == Received(events[..i]);
  }

  /** Every tick is a message boundary: nothing received before it is held back any longer. */
  lemma TickIsBoundary(events: seq<Event>, cuts: seq<nat>, emitted: seq<Bytes>, buffer: Bytes, i: nat)
    requires AllCut(events, |events|, cuts, emitted, buffer) && i < |events| && events[i].Tick?
    ensures Boundary(events, emitted, i)
  {
    var m := |cuts|;
    var k := m;
    if i < CutAt(cuts, m) {
      k := CutBefore(cuts, i, m);
    }
    if k == m {
      assert KeepsOn(events, CutAt(cuts, m), i + 1);
      QuietTick(events, cuts, emitted, buffer, i, m);
    } else if cuts[k] == i + 1 {
      EmittingTick(events, cuts, emitted, buffer, i, k + 1);
    } else {
      assert CutMessage(events, cuts, emitted, k);
      assert KeepsOn(events, CutAt(cuts, k), i + 1);
      QuietTick(events, cuts, emitted, buffer, i, k);
    }
  }

  lemma WhatCutsMean(events: seq<Event>, cuts: seq<nat>, emitted: seq<Bytes>, buffer: Bytes)
    requires AllCut(events, |events|, cuts, emitted, buffer)
    ensures forall i: nat :: i < |events| && events[i].Tick? ==> Boundary(events, emitted, i)
    ensures (forall i :: 0 <= i < |events| ==> events[i].Data?) ==> forall k :: 0 <= k < |emitted| ==> |emitted[k]| >= 65536
  {
    if forall i :: 0 <= i < |events| ==> events[i].Data? {
      FullWithoutTicks(events, |events|, cuts, emitted, buffer);
    }
    forall i: nat | i < |events| && events[i].Tick? ensures Boundary(events, emitted, i) {
      TickIsBoundary(events, cuts, emitted, buffer, i);
    }
  }

  /** The loop up to the close of the channel: what is emitted and what is still buffered is what was received. */
  method Buffer(events: seq<Event>) returns (emitted: seq<Bytes>, buffer: Bytes, ghost cuts: seq<nat>)
    ensures Concat(emitted) + buffer == Received(events)
    ensures |buffer| < 65536
    ensures Sized(emitted, Longest(events))
    ensures AllCut(events, |events|, cuts, emitted, buffer)
    ensures forall i: nat :: i < |events| && events[i].Tick? ==> Boundary(events, emitted, i)
    ensures events != [] && events[|events| - 1].Tick? ==> buffer == []
    ensures (forall i :: 0 <= i < |events| ==> events[i].Data?) ==> forall k :: 0 <= k < |emitted| ==> |emitted[k]| >= 65536
  {
    emitted, buffer, cuts := [], [], [];
    assert events[0..0] == [];
    for i := 0 to |events|
      invariant Concat(emitted) + buffer == Received(events[..i])
      invariant |buffer| < MAX_BUFFER_SIZE
      invariant Sized(emitted, Longest(events[..i]))
      invariant AllCut(events, i, cuts, emitted, buffer)
      invariant i > 0 && events[i - 1].Tick? ==> buffer == []
    {
      PushReceived(emitted, buffer, events, i);
      PushSized(emitted, buffer, events, i);
      cuts := CutStep(events, i, cuts, emitted, buffer);
      match events[i] {
        case Tick =>
          if |buffer| > 0 {
            emitted, buffer := emitted + [buffer], [];
          }
        case Data(bytes) =>
          buffer := buffer + bytes;
          if |buffer| >= MAX_BUFFER_SIZE {
            emitted, buffer := emitted + [buffer], [];
          }
      }
    }
    assert events[..|events|] == events;
    WhatCutsMean(events, cuts, emitted, buffer);
  }

  /** With the deferred flush at the end, the messages together are exactly the input. */
  method LogBufferedDataEvents(events: seq<Event>) returns (emitted: seq<Bytes>)
    ensures Concat(emitted) == Received(events)
    ensures Sized(emitted, Longest(events))
  {
    var buffer: Bytes;
    ghost var cuts;
    emitted, buffer, cuts := Buffer(events);
    if |buffer| > 0 {
      ConcatPush(emitted, buffer);
      emitted := emitted + [buffer];
    }
  }
}
