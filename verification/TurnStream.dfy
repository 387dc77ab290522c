/** The replayable frame log and the running-turn lease of a session (`RedisChatTurnStream`). */
module TurnStream {
  import opened Sequences

  /** One stream entry; the store numbers entries of a stream in increasing order. */
  datatype Entry = Entry(id: nat, frame: string, terminal: bool)

  /** The turn that holds a session, and the moment its key expires. */
  datatype Lease = Lease(turn: string, until: nat)

  type Leases = map<string, Lease>           // session -> its lease

  type Streams = map<string, seq<Entry>>     // turn -> its frames

  function Log(streams: Streams, turn: string): seq<Entry> {
    if turn in streams then streams[turn] else []
  }

  function Appended(log: seq<Entry>, frame: string, terminal: bool): seq<Entry> {
    log + [Entry(|log| + 1, frame, terminal)]
  }

  function Append(streams: Streams, turn: string, frame: string, terminal: bool): Streams {
    streams[turn := Appended(Log(streams, turn), frame, terminal)]
  }

  predicate Holds(leases: Leases, session: string, turn: string) {
    session in leases && leases[session].turn == turn
  }

  function Acquire(leases: Leases, session: string, turn: string, until: nat): Leases {
    if session in leases then leases else leases[session := Lease(turn, until)]
  }

  function Renew(leases: Leases, session: string, turn: string, until: nat): Leases {
    if Holds(leases, session, turn) then leases[session := Lease(turn, until)] else leases
  }

  function Release(leases: Leases, session: string, turn: string): Leases {
    if Holds(leases, session, turn) then leases - {session} else leases
  }

  /** Keys vanish when their time has come. */
  function Unexpired(leases: Leases, now: nat): Leases {
    map session | session in leases && now < leases[session].until :: leases[session]
  }

  class RedisChatTurnStream {
    const ttl: nat
    var now: nat
    var leases: Leases
    var streams: Streams

    constructor (ttl: nat)
      ensures this.ttl == ttl && now == 0 && leases == map[] && streams == map[]
    {
      this.ttl, now, leases, streams := ttl, 0, map[], map[];
    }

    /** The server's clock. */
    method PassTime(seconds: nat)
      modifies `now, `leases
      ensures now == old(now) + seconds && leases == Unexpired(old(leases), now)
    {
      now := now + seconds;
      leases := Unexpired(leases, now);
    }

    method AcquireActiveTurn(session: string, turn: string) returns (acquired: bool)
      modifies `leases
      ensures leases == Acquire(old(leases), session, turn, now + ttl)
      ensures acquired == (session !in old(leases))
      ensures leases == if acquired then old(leases)[session := Lease(turn, now + ttl)] else old(leases)
    {
      acquired := session !in leases;
      if acquired { leases := leases[session := Lease(turn, now + ttl)]; }
    }

    /** Sets the deadline anew, only for the turn that holds the lease. */
    method RenewActiveTurn(session: string, turn: string) returns (renewed: bool)
      modifies `leases
      ensures leases == Renew(old(leases), session, turn, now + ttl)
      ensures renewed == Holds(old(leases), session, turn)
      ensures renewed <==> session in old(leases) && old(leases)[session].turn == turn
      ensures leases == if renewed then old(leases)[session := Lease(turn, now + ttl)] else old(leases)
    {
      renewed := session in leases && leases[session].turn == turn;
      if renewed { leases := leases[session := Lease(turn, now + ttl)]; }
    }

    method ReleaseActiveTurn(session: string, turn: string) returns (released: bool)
      modifies `leases
      ensures leases == Release(old(leases), session, turn)
      ensures released == Holds(old(leases), session, turn)
      ensures released <==> session in old(leases) && old(leases)[session].turn == turn
      ensures leases == if released then old(leases) - {session} else old(leases)
    {
      released := session in leases && leases[session].turn == turn;
      if released { leases := leases - {session}; }
    }

    method AppendFrame(turn: string, frame: string, terminal: bool) returns (id: nat)
      modifies `streams
      ensures streams == Append(old(streams), turn, frame, terminal)
      ensures id == |Log(streams, turn)|
      ensures Log(streams, turn) == Log(old(streams), turn) + [Entry(id, frame, terminal)]
      ensures forall t {:trigger Log(streams, t)} :: t != turn ==> Log(streams, t) == Log(old(streams), t)
    {
      var log := if turn in streams then streams[turn] else [];
      id := |log| + 1;
      streams := streams[turn := log + [Entry(id, frame, terminal)]];
    }
  }

  // ---------------------------------------------------------------------------------------------
  // Subscribing

  ghost predicate Numbered(log: seq<Entry>) {
    && (forall k {:trigger log[k]} :: 0 <= k < |log| ==> 0 < log[k].id)
    && (forall j, k {:trigger log[j], log[k]} :: 0 <= j < k < |log| ==> log[j].id < log[k].id)
  }

  /** The states of one stream that a subscriber's successive reads meet: frames are only appended, by
      anyone, between any two of them. */
  ghost predicate OnlyGrows(snapshots: seq<seq<Entry>>) {
    forall j, k {:trigger snapshots[j], snapshots[k]} :: 0 <= j < k < |snapshots| ==> snapshots[j] <= snapshots[k]
  }

  function HasTerminal(log: seq<Entry>): bool {
    exists k :: 0 <= k < |log| && log[k].terminal
  }

  /** A log up to and including its first terminal frame. */
  function UpToTerminal(log: seq<Entry>): seq<Entry> {
    if log == [] then []
    else if log[0].terminal then [log[0]]
    else [log[0]] + UpToTerminal(log[1..])
  }

  /** It ends at the first terminal frame; without one it is all of the log. */
  lemma {:induction false} UpToTerminalIs(log: seq<Entry>) returns (n: nat)
    ensures n <= |log| && UpToTerminal(log) == log[..n]
    ensures forall k {:trigger log[k]} :: 0 <= k < n - 1 ==> !log[k].terminal
    ensures n < |log| ==> n > 0 && log[n - 1].terminal
  {
    if log == [] {
      n := 0;
    } else if log[0].terminal {
      n := 1;
    } else {
      n := UpToTerminalIs(log[1..]);
      assert log[..n + 1] == [log[0]] + log[1..][..n];
      n := n + 1;
    }
  }

  /** XREAD: the first `count` entries numbered after `after`. */
  function ReadAfter(log: seq<Entry>, after: nat, count: nat): seq<Entry> {
    if log == [] || count == 0 then []
    else if log[0].id <= after then ReadAfter(log[1..], after, count)
    else [log[0]] + ReadAfter(log[1..], after, count - 1)
  }

  const BATCH := 50

  /** How much of the log a subscriber has been given after these reads: all there was at the first,
      then at most one batch more at each. */
  function Reached(snapshots: seq<seq<Entry>>): nat {
    if snapshots == [] then 0
    else if |snapshots| == 1 then |snapshots[0]|
    else Min(|Last(snapshots)|, Reached(Init(snapshots)) + BATCH)
  }

  /** The first read brings all there is, a later one up to fifty entries more. */
  lemma ReachedIs(snapshots: seq<seq<Entry>>, next: seq<Entry>)
    ensures Reached([next]) == |next|
    ensures snapshots != [] ==>
      var more := Reached(snapshots + [next]);
      if Reached(snapshots) + 50 <= |next| then more == Reached(snapshots) + 50 else more == |next|
  {
    assert Init(snapshots + [next]) == snapshots && Last(snapshots + [next]) == next;
  }

  lemma {:induction false} ReadAfterIsNext(log: seq<Entry>, seen: nat, after: nat, count: nat)
    requires Numbered(log) && seen <= |log|
    requires after == if seen == 0 then 0 else log[seen - 1].id
    ensures ReadAfter(log, after, count) == log[seen..Min(|log|, seen + count)]
    decreases |log|
  {
    if log == [] || count == 0 {
    } else if seen == 0 {
      hide ReadAfter;
      NothingBefore(log, 0, count);
    } else {
      var rest := log[1..];
      assert log[0].id <= after;
      assert ReadAfter(log, after, count) == ReadAfter(rest, after, count);
      hide ReadAfter, Numbered;
      if seen > 1 {
        assert rest[seen - 2] == log[seen - 1];
        ReadAfterIsNext(rest, seen - 1, after, count);
      } else {
        NothingBefore(rest, after, count);
      }
      SliceOfTail(log, 1, seen - 1, Min(|log|, seen + count) - 1);
    }
  }

  /** When every entry is numbered above `after`, XREAD starts at the first. */
  lemma {:induction false} NothingBefore(log: seq<Entry>, after: nat, count: nat)
    requires forall k {:trigger log[k]} :: 0 <= k < |log| ==> after < log[k].id
    ensures ReadAfter(log, after, count) == log[..Min(|log|, count)]
    decreases |log|
  {
    if log != [] && count > 0 {
      var rest := log[1..];
      assert forall k {:trigger rest[k]} :: 0 <= k < |rest| ==> rest[k] == log[k + 1];
      NothingBefore(rest, after, count - 1);
      assert log[..Min(|log|, count)] == [log[0]] + rest[..Min(|rest|, count - 1)];
    }
  }

  lemma {:induction false} UpToTerminalSplits(a: seq<Entry>, b: seq<Entry>)
    ensures UpToTerminal(a + b) == if HasTerminal(a) then UpToTerminal(a) else a + UpToTerminal(b)
    decreases |a|
  {
    if a == [] {
      assert a + b == b;
    } else {
      assert (a + b)[0] == a[0] && (a + b)[1..] == a[1..] + b;
      UpToTerminalSplits(a[1..], b);
      if !a[0].terminal {
        assert [a[0]] + a[1..] == a;
      }
    }
  }

  lemma OneEntryMore(entries: seq<Entry>, k: nat)
    requires k < |entries| && !HasTerminal(entries[..k])
    ensures !entries[k].terminal ==> !HasTerminal(entries[..k + 1])
    ensures entries[k].terminal ==> HasTerminal(entries) && UpToTerminal(entries) == entries[..k + 1]
  {
    var front, rest := entries[..k], entries[k..];
    assert entries[..k + 1] == front + [entries[k]] && entries == front + rest && rest[0] == entries[k];
    hide HasTerminal, UpToTerminal;
    if entries[k].terminal {
      UpToTerminalSplits(front, rest);
      TerminalFirst(rest);
      TerminalInside(front, rest);
    } else {
      NoTerminalGrows(front, entries[k]);
    }
  }

  lemma TerminalFirst(rest: seq<Entry>)
    requires rest != [] && rest[0].terminal
    ensures UpToTerminal(rest) == [rest[0]]
  {
  }

  lemma TerminalInside(front: seq<Entry>, rest: seq<Entry>)
    requires rest != [] && rest[0].terminal
    ensures HasTerminal(front + rest)
  {
    assert (front + rest)[|front|].terminal;
  }

  lemma NoTerminalGrows(front: seq<Entry>, e: Entry)
    requires !HasTerminal(front) && !e.terminal
    ensures !HasTerminal(front + [e])
  {
  }

  lemma {:induction false} NoTerminalAllOfIt(a: seq<Entry>)
    requires !HasTerminal(a)
    ensures UpToTerminal(a) == a
    decreases |a|
  {
    UpToTerminalSplits(a, []);
    assert a + [] == a;
  }

  /** Hands on entries one at a time until a terminal one has been handed on. */
  method Forward(yielded: seq<Entry>, entries: seq<Entry>) returns (all: seq<Entry>, lastId: nat, done: bool)
    ensures all == yielded + UpToTerminal(entries)
    ensures done == HasTerminal(entries)
    ensures !done && entries != [] ==> lastId == Last(entries).id
  {
    all, lastId, done := yielded, 0, false;
    NothingYet();
    hide UpToTerminal, HasTerminal;
    for k := 0 to |entries|
      invariant !HasTerminal(entries[..k])
      invariant all == yielded + entries[..k]
      invariant k > 0 ==> lastId == entries[k - 1].id
    {
      lastId := entries[k].id;
      all := all + [entries[k]];
      assert entries[..k + 1] == entries[..k] + [entries[k]];
      OneEntryMore(entries, k);
      if entries[k].terminal { return all, lastId, true; }
    }
    assert entries[..|entries|] == entries;
    NoTerminalAllOfIt(entries);
    done := false;
  }

  /** A subscriber that joins at any moment: it replays what is there, then polls. Read number k sees
      the stream as `snapshots[k]`; polls that time out see no new entry. What it has handed on is the
      log as far as it has read, cut off after the first terminal frame. */
  method IterFrames(snapshots: seq<seq<Entry>>) returns (yielded: seq<Entry>, done: bool)
    requires snapshots != [] && OnlyGrows(snapshots)
    requires forall k {:trigger snapshots[k]} :: 0 <= k < |snapshots| ==> Numbered(snapshots[k])
    ensures Reached(snapshots) <= |Last(snapshots)|
    ensures yielded == UpToTerminal(Last(snapshots)[..Reached(snapshots)])
    ensures done == HasTerminal(Last(snapshots)[..Reached(snapshots)])
  {
    hide UpToTerminal, HasTerminal, ReadAfter, Numbered;
    NothingYet();
    var lastId := 0;
    var id: nat;
    yielded, id, done := Forward([], snapshots[0]);
    if snapshots[0] != [] { lastId := id; }
    assert [] + UpToTerminal(snapshots[0]) == UpToTerminal(snapshots[0]);
    var k := 1;
    assert snapshots[..1] == [snapshots[0]] && snapshots[0][..|snapshots[0]|] == snapshots[0];
    assert CaughtUp(snapshots[..1], yielded, done, lastId);
    hide CaughtUp, Reached, OnlyGrows;
    while k < |snapshots| && !done
      invariant 1 <= k <= |snapshots|
      invariant CaughtUp(snapshots[..k], yielded, done, lastId)
    {
      var entries := ReadAfter(snapshots[k], lastId, BATCH);
      NextRead(snapshots[..k], snapshots[k], yielded, lastId, entries);
      assert snapshots[..k + 1] == snapshots[..k] + [snapshots[k]];
      if entries != [] {
        yielded, lastId, done := Forward(yielded, entries);
      }
      k := k + 1;
    }
    assert done || snapshots[..k] == snapshots;
    Stopped(snapshots, k, yielded, done, lastId);
  }

  lemma NothingYet()
    ensures UpToTerminal([]) == [] && !HasTerminal([])
  {
  }

  lemma Stopped(snapshots: seq<seq<Entry>>, k: nat, yielded: seq<Entry>, done: bool, lastId: nat)
    requires OnlyGrows(snapshots) && 1 <= k <= |snapshots|
    requires CaughtUp(snapshots[..k], yielded, done, lastId) && (done || snapshots[..k] == snapshots)
    ensures Reached(snapshots) <= |Last(snapshots)|
    ensures yielded == UpToTerminal(Last(snapshots)[..Reached(snapshots)])
    ensures done == HasTerminal(Last(snapshots)[..Reached(snapshots)])
  {
    hide UpToTerminal, HasTerminal, Reached;
    assert Last(snapshots[..k]) == snapshots[k - 1];
    StaysDone(snapshots, k);
  }

  /** A subscriber's position after these reads. */
  ghost predicate CaughtUp(snapshots: seq<seq<Entry>>, yielded: seq<Entry>, done: bool, lastId: nat) {
    var r := Reached(snapshots);
    && snapshots != []
    && r <= |Last(snapshots)|
    && yielded == UpToTerminal(Last(snapshots)[..r])
    && done == HasTerminal(Last(snapshots)[..r])
    && (!done ==> lastId == if r == 0 then 0 else Last(snapshots)[r - 1].id)
  }

  lemma NextRead(snapshots: seq<seq<Entry>>, log: seq<Entry>, yielded: seq<Entry>, lastId: nat, entries: seq<Entry>)
    requires CaughtUp(snapshots, yielded, false, lastId)
    requires Last(snapshots) <= log && Numbered(log)
    requires entries == ReadAfter(log, lastId, BATCH)
    ensures
      var id := if entries == [] then lastId else Last(entries).id;
      CaughtUp(snapshots + [log], yielded + UpToTerminal(entries), HasTerminal(entries), id)
  {
    hide UpToTerminal, HasTerminal, ReadAfter, Numbered;
    var r := Reached(snapshots);
    var before := Last(snapshots);
    assert before[..r] == log[..r];
    assert r > 0 ==> before[r - 1] == log[r - 1];
    ReadAfterIsNext(log, r, lastId, BATCH);
    hide Reached;
    var next := Reached(snapshots + [log]);
    Advance(log, r, next, entries);
    assert entries != [] ==> Last(entries) == log[next - 1];
  }

  lemma Advance(log: seq<Entry>, r: nat, next: nat, entries: seq<Entry>)
    requires r <= next <= |log| && entries == log[r..next]
    requires !HasTerminal(log[..r])
    ensures UpToTerminal(log[..next]) == UpToTerminal(log[..r]) + UpToTerminal(entries)
    ensures HasTerminal(log[..next]) == HasTerminal(entries)
  {
    assert log[..next] == log[..r] + entries;
    NoTerminalAllOfIt(log[..r]);
    UpToTerminalSplits(log[..r], entries);
    TerminalInEither(log[..r], entries);
  }

  lemma TerminalInEither(a: seq<Entry>, b: seq<Entry>)
    ensures HasTerminal(a + b) == (HasTerminal(a) || HasTerminal(b))
  {
    var ab := a + b;
    if HasTerminal(a) { var k :| 0 <= k < |a| && a[k].terminal; assert ab[k].terminal; }
    if HasTerminal(b) { var k :| 0 <= k < |b| && b[k].terminal; assert ab[|a| + k].terminal; }
  }

  lemma {:induction false} ReachedGrows(snapshots: seq<seq<Entry>>, k: nat)
    requires OnlyGrows(snapshots) && 1 <= k <= |snapshots|
    ensures Reached(snapshots[..k]) <= Reached(snapshots) <= |Last(snapshots)|
    decreases |snapshots| - k
  {
    if k == |snapshots| {
      assert snapshots[..k] == snapshots;
    } else {
      assert Init(snapshots[..k + 1]) == snapshots[..k];
      assert snapshots[k - 1] <= snapshots[k];
      ReachedGrows(snapshots, k + 1);
    }
  }

  /** When the log stays as it is from read k on, every read brings a whole batch until nothing is left. */
  lemma {:induction false} ReachedSettles(snapshots: seq<seq<Entry>>, k: nat)
    requires OnlyGrows(snapshots) && 1 <= k <= |snapshots|
    requires forall m {:trigger snapshots[m]} :: k <= m < |snapshots| ==> snapshots[m] == Last(snapshots)
    ensures Reached(snapshots)
            == Min(|Last(snapshots)|, Reached(snapshots[..k]) + BATCH * (|snapshots| - k))
    decreases |snapshots|
  {
    if k == |snapshots| {
      assert snapshots[..k] == snapshots;
      ReachedGrows(snapshots, k);
    } else {
      var early := Init(snapshots);
      assert early[..k] == snapshots[..k];
      ReachedGrows(snapshots, k);
      ReachedGrows(early, k);
      if k < |early| {
        assert Last(early) == snapshots[|early| - 1];
        ReachedSettles(early, k);
      } else {
        assert early == snapshots[..k];
      }
    }
  }

  /** So a subscriber that reads often enough after the last append has been given everything. */
  lemma EnoughPolls(snapshots: seq<seq<Entry>>, k: nat)
    requires OnlyGrows(snapshots) && k < |snapshots|
    requires forall m {:trigger snapshots[m]} :: k <= m < |snapshots| ==> snapshots[m] == Last(snapshots)
    requires |Last(snapshots)| <= BATCH * (|snapshots| - k)
    ensures Reached(snapshots) == |Last(snapshots)|
  {
    if k == 0 {
      assert snapshots[..1] == [snapshots[0]];
      ReachedGrows(snapshots, 1);
    } else {
      ReachedSettles(snapshots, k);
    }
  }

  /** Once the terminal frame was handed on, later reads would have changed nothing. */
  lemma StaysDone(snapshots: seq<seq<Entry>>, k: nat)
    requires OnlyGrows(snapshots) && 1 <= k <= |snapshots|
    requires Reached(snapshots[..k]) <= |snapshots[k - 1]|
    ensures Reached(snapshots) <= |Last(snapshots)|
    ensures
      var r := Reached(snapshots[..k]);
      HasTerminal(snapshots[k - 1][..r])
      ==> HasTerminal(Last(snapshots)[..Reached(snapshots)])
          && UpToTerminal(Last(snapshots)[..Reached(snapshots)]) == UpToTerminal(snapshots[k - 1][..r])
  {
    hide UpToTerminal, HasTerminal, Reached;
    ReachedGrows(snapshots, k);
    assert snapshots[k - 1] <= Last(snapshots);
    hide OnlyGrows;
    var r := Reached(snapshots[..k]);
    var early := snapshots[k - 1][..r];
    var full := Last(snapshots)[..Reached(snapshots)];
    assert full == early + full[r..];
    UpToTerminalSplits(early, full[r..]);
    TerminalInEither(early, full[r..]);
  }
}
