/** Paging a session's messages by user turns (`list_session_message_turns_page`). */
module Paging {
  import opened Sequences

  datatype Role = System | User | Assistant | Tool

  datatype Message = Message(role: Role, time: int, text: string)

  /** The session's stored messages in time order; messages of equal time in the order stored. */
  ghost predicate InTimeOrder(log: seq<Message>) {
    forall i, j {:trigger log[i], log[j]} :: 0 <= i < j < |log| ==> log[i].time <= log[j].time
  }

  predicate IsUser(m: Message) { m.role.User? }

  predicate Shown(m: Message) { !m.role.System? }

  function Users(log: seq<Message>): seq<Message> { Filter(log, IsUser) }

  // ---------------------------------------------------------------------------------------------
  // The query

  /** `.skip(n).limit(k)` */
  function Window<T>(s: seq<T>, skip: nat, limit: nat): seq<T> {
    if skip >= |s| then [] else s[skip..Min(|s|, skip + limit)]
  }

  function Earliest(ms: seq<Message>): int
    requires ms != []
  {
    if |ms| == 1 then ms[0].time else Min(ms[0].time, Earliest(ms[1..]))
  }

  /** Shown messages from `lower` on and, when there is an upper bound, before it. */
  predicate Within(m: Message, lower: int, upper: Option<int>) {
    Shown(m) && m.time >= lower && (upper.Some? ==> m.time < upper.value)
  }

  function Between(log: seq<Message>, lower: int, upper: Option<int>): seq<Message> {
    Filter(log, m => Within(m, lower, upper))
  }

  /** Page 1 holds the newest `size` turns; one newer user message is fetched along with any later page
      to bound it from above. */
  function Page(log: seq<Message>, page: nat, size: nat): (seq<Message>, nat)
    requires page >= 1 && size >= 1
  {
    PageFrom(log, (page - 1) * size, size, page > 1)
  }

  function PageFrom(log: seq<Message>, skip: nat, size: nat, later: bool): (seq<Message>, nat) {
    var total := |Users(log)|;
    if total == 0 then ([], 0)
    else
      var fetchSkip := if later then Max(0, skip - 1) else 0;
      var fetchLimit := size + if later then 1 else 0;
      var users := Window(Reversed(Users(log)), fetchSkip, fetchLimit);
      if users == [] then ([], total)
      else
        var upper := if later then Some(users[0].time) else None;
        var pageUsers := if later then users[1..] else users;
        if pageUsers == [] then ([], total)
        else (Between(log, Earliest(pageUsers), upper), total)
  }

  // ---------------------------------------------------------------------------------------------
  // Which turns a page is about

  /** User messages `Start` up to `Stop`, counted from the oldest, are the turns of a page. */
  function Start(total: nat, page: nat, size: nat): nat {
    Max(0, total - page * size)
  }

  function Stop(total: nat, page: nat, size: nat): nat
    requires page >= 1
  {
    Start(total, page - 1, size)
  }

  lemma {:induction false} UsersInTimeOrder(log: seq<Message>)
    requires InTimeOrder(log)
    ensures InTimeOrder(Users(log))
  {
    if log != [] {
      var rest := log[1..];
      assert forall i {:trigger rest[i]} :: 0 <= i < |rest| ==> rest[i] == log[i + 1];
      UsersInTimeOrder(rest);
      FilterMembers(rest, IsUser);
      forall m | m in Users(rest)
        ensures log[0].time <= m.time
      {
        var k :| 0 <= k < |rest| && rest[k] == m;
        assert log[k + 1] == m;
      }
    }
  }

  lemma {:induction false} EarliestOfReversed(ms: seq<Message>)
    requires ms != []
    requires forall i, j {:trigger ms[i], ms[j]} :: 0 <= i < j < |ms| ==> ms[i].time >= ms[j].time
    ensures Earliest(ms) == ms[|ms| - 1].time
  {
    if |ms| > 1 {
      var rest := ms[1..];
      assert forall i {:trigger rest[i]} :: 0 <= i < |rest| ==> rest[i] == ms[i + 1];
      EarliestOfReversed(rest);
    }
  }

  lemma WindowOfReversed(users: seq<Message>, skip: nat, size: nat)
    requires InTimeOrder(users) && size >= 1 && skip < |users|
    ensures
      var window := Window(Reversed(users), skip, size);
      && |window| == Min(size, |users| - skip)
      && window[0] == users[|users| - 1 - skip]
      && Earliest(window) == users[Max(0, |users| - skip - size)].time
  {
    var window := Window(Reversed(users), skip, size);
    assert forall i {:trigger window[i]} :: 0 <= i < |window| ==> window[i] == users[|users| - 1 - skip - i];
    EarliestOfReversed(window);
  }

  /** The bounds of a page, from user messages `lo` up to `hi`. */
  function Bounded(log: seq<Message>, lo: nat, hi: nat): seq<Message>
    requires lo <= hi <= |Users(log)|
  {
    var users := Users(log);
    if lo == hi then [] else Between(log, users[lo].time, if hi < |users| then Some(users[hi].time) else None)
  }

  lemma FirstPageBounds(log: seq<Message>, size: nat)
    requires InTimeOrder(log) && size >= 1
    ensures PageFrom(log, 0, size, false) == (Bounded(log, Max(0, |Users(log)| - size), |Users(log)|), |Users(log)|)
  {
    hide Users, Between, Earliest, InTimeOrder, Window, Reversed;
    UsersInTimeOrder(log);
    if Users(log) != [] { WindowOfReversed(Users(log), 0, size); }
  }

  lemma LaterPageBounds(log: seq<Message>, skip: nat, size: nat)
    requires InTimeOrder(log) && size >= 1 && skip > 0
    ensures
      var n := |Users(log)|;
      PageFrom(log, skip, size, true) == (Bounded(log, Max(0, n - skip - size), Max(0, n - skip)), n)
  {
    var users := Users(log);
    UsersInTimeOrder(log);
    hide Users, Between, Earliest, InTimeOrder, Window, Reversed, PageFrom;
    LaterPageIs(log, skip, size);
    if skip - 1 >= |users| {
      NoWindow(Reversed(users), skip - 1, size + 1);
    } else {
      WindowTail(Reversed(users), skip, size);
      if skip == |users| { NoWindow(Reversed(users), skip, size); } else { LaterPageInside(log, skip, size); }
    }
  }

  lemma LaterPageInside(log: seq<Message>, skip: nat, size: nat)
    requires InTimeOrder(Users(log)) && size >= 1 && 0 < skip < |Users(log)|
    ensures
      var n := |Users(log)|;
      PageFrom(log, skip, size, true) == (Bounded(log, Max(0, n - skip - size), n - skip), n)
  {
    var users := Users(log);
    var lo := Max(0, |users| - skip - size);
    hide Users, Between, Earliest, InTimeOrder, Window, Reversed, PageFrom, Max;
    LaterPageIs(log, skip, size);
    WindowTail(Reversed(users), skip, size);
    WindowOfReversed(users, skip - 1, size + 1);
    WindowOfReversed(users, skip, size);
    MaxIs(0, |users| - skip - size);
    assert Bounded(log, lo, |users| - skip) == Between(log, users[lo].time, Some(users[|users| - skip].time));
  }

  lemma MaxIs(a: int, b: int)
    ensures Max(a, b) == if a > b then a else b
  {
  }

  lemma LaterPageIs(log: seq<Message>, skip: nat, size: nat)
    requires size >= 1 && skip > 0
    ensures
      var window := Window(Reversed(Users(log)), skip - 1, size + 1);
      PageFrom(log, skip, size, true)
      == if |window| <= 1 then ([], |Users(log)|)
         else (Between(log, Earliest(window[1..]), Some(window[0].time)), |Users(log)|)
  {
    hide Between, Earliest, Users, Reversed;
    if Users(log) == [] { NoWindow(Reversed(Users(log)), skip - 1, size + 1); }
  }

  lemma WindowTail<T>(s: seq<T>, skip: nat, size: nat)
    requires 1 <= skip <= |s|
    ensures Window(s, skip - 1, size + 1) != []
    ensures Window(s, skip - 1, size + 1)[1..] == Window(s, skip, size)
  {
  }

  lemma NoWindow<T>(s: seq<T>, skip: nat, size: nat)
    requires skip >= |s|
    ensures Window(s, skip, size) == []
  {
  }

  /** A page holds the shown messages from its oldest turn on, up to the oldest turn of the newer page. */
  lemma PageBounds(log: seq<Message>, page: nat, size: nat)
    requires InTimeOrder(log) && page >= 1 && size >= 1
    ensures
      var users := Users(log);
      var lo, hi := Start(|users|, page, size), Stop(|users|, page, size);
      lo <= hi <= |users| && Page(log, page, size) == (Bounded(log, lo, hi), |users|)
  {
    hide Users, PageFrom, Bounded, InTimeOrder;
    if page == 1 { FirstPageBounds(log, size); } else { LaterPageBounds(log, (page - 1) * size, size); }
  }

  /** The same read off the log alone: of n user messages in all, a page takes the messages that are no
      system messages from the time of user message n - page * size on, or of the first one where there are
      fewer, up to that of user message n - (page - 1) * size, or to the end on the newest page. */
  lemma PageReadOff(log: seq<Message>, page: nat, size: nat)
    requires InTimeOrder(log) && page >= 1 && size >= 1
    ensures
      var users := Filter(log, (m: Message) => m.role == User);
      var n := |users|;
      var lo := if n < page * size then 0 else n - page * size;
      var hi := if n < (page - 1) * size then 0 else n - (page - 1) * size;
      && 0 <= lo <= hi <= n
      && Page(log, page, size) ==
         (if lo == hi then []
          else Filter(log, (m: Message) =>
                 m.role != System && users[lo].time <= m.time && (hi == n || m.time < users[hi].time)),
          n)
  {
    PageBounds(log, page, size);
    FilterSame(log, IsUser, (m: Message) => m.role == User);
    var users := Users(log);
    var n := |users|;
    var lo, hi := Start(n, page, size), Stop(n, page, size);
    if lo < hi {
      var upper := if hi < n then Some(users[hi].time) else None;
      FilterSame(log, m => Within(m, users[lo].time, upper), (m: Message) =>
        m.role != System && users[lo].time <= m.time && (hi == n || m.time < users[hi].time));
    }
  }

  // ---------------------------------------------------------------------------------------------
  // Pages put together

  /** Pages `page` down to 1, oldest page first. */
  function Pages(log: seq<Message>, page: nat, size: nat): seq<Message>
    requires size >= 1
  {
    if page == 0 then [] else Page(log, page, size).0 + Pages(log, page - 1, size)
  }

  /** Cutting a time range in two cuts the messages in two, because they are in time order. */
  lemma {:induction false} RangesJoin(log: seq<Message>, a: int, b: int)
    requires InTimeOrder(log) && a <= b
    ensures Between(log, a, Some(b)) + Between(log, b, None) == Between(log, a, None)
    decreases |log|
  {
    if log != [] {
      var last, early := Last(log), Init(log);
      assert log == early + [last];
      assert forall i {:trigger early[i]} :: 0 <= i < |early| ==>
        early[i] == log[i] && log[i].time <= log[|log| - 1].time;
      RangesJoin(early, a, b);
      BetweenSplits(early, last, a, Some(b));
      BetweenSplits(early, last, b, None);
      BetweenSplits(early, last, a, None);
      hide Between;
      if last.time < b {
        NothingBetween(early, b);
      }
    }
  }

  lemma BetweenSplits(early: seq<Message>, last: Message, lower: int, upper: Option<int>)
    ensures Between(early + [last], lower, upper)
            == if Within(last, lower, upper) then Between(early, lower, upper) + [last]
               else Between(early, lower, upper)
  {
    FilterSplits(early, [last], m => Within(m, lower, upper));
    FilterOne(last, m => Within(m, lower, upper));
  }

  lemma NothingBetween(log: seq<Message>, lower: int)
    requires forall i {:trigger log[i]} :: 0 <= i < |log| ==> log[i].time < lower
    ensures Between(log, lower, None) == []
  {
    FilterNone(log, m => Within(m, lower, None));
  }

  /** Neighbouring stretches of turns join to one. */
  lemma StretchesJoin(log: seq<Message>, lo: nat, hi: nat)
    requires InTimeOrder(log) && lo <= hi <= |Users(log)|
    ensures Bounded(log, lo, hi) + Bounded(log, hi, |Users(log)|) == Bounded(log, lo, |Users(log)|)
  {
    var users := Users(log);
    UsersInTimeOrder(log);
    hide Users, Between;
    if lo < hi < |users| {
      assert users[lo].time <= users[hi].time;
      RangesJoin(log, users[lo].time, users[hi].time);
    }
  }

  /** Pages from any one down to the newest hold, each once and in time order, exactly the shown messages
      from the oldest of their turns on - whatever the timestamps, ties included. */
  lemma {:induction false} PagesPartition(log: seq<Message>, page: nat, size: nat)
    requires InTimeOrder(log) && size >= 1
    ensures
      var n := |Users(log)|;
      Start(n, page, size) <= n && Pages(log, page, size) == Bounded(log, Start(n, page, size), n)
    decreases page
  {
    hide Users, Bounded, Page, InTimeOrder;
    var n := |Users(log)|;
    if page == 0 {
      NothingBounded(log);
    } else {
      PageBounds(log, page, size);
      PagesPartition(log, page - 1, size);
      StretchesJoin(log, Start(n, page, size), Stop(n, page, size));
    }
  }

  lemma NothingBounded(log: seq<Message>)
    ensures Bounded(log, |Users(log)|, |Users(log)|) == []
  {
  }

  function PageCount(total: nat, size: nat): nat
    requires size >= 1
  {
    (total + size - 1) / size
  }

  /** All pages together hold exactly the shown messages from the first user message on. */
  lemma AllPages(log: seq<Message>, size: nat)
    requires InTimeOrder(log) && size >= 1
    ensures
      var users := Users(log);
      Pages(log, PageCount(|users|, size), size)
      == if users == [] then [] else Between(log, users[0].time, None)
  {
    var n := |Users(log)|;
    PagesPartition(log, PageCount(n, size), size);
    PagesCover(n, size);
    hide Users, Between, Pages, PageCount, InTimeOrder;
  }

  lemma PagesCover(total: nat, size: nat)
    requires size >= 1
    ensures PageCount(total, size) * size >= total
  {
    var q := total + size - 1;
    assert q == size * (q / size) + q % size;
  }

  // ---------------------------------------------------------------------------------------------
  // How many turns a page holds

  /** No tie in time across position i of the user messages. */
  predicate CleanCut(users: seq<Message>, i: nat) {
    0 < i < |users| ==> users[i - 1].time < users[i].time
  }

  /** The user messages on a page are exactly its turns - `size` of them on a full page - if and only if
      no tie in time lies across either end of it. */
  lemma PageTurns(log: seq<Message>, page: nat, size: nat)
    requires InTimeOrder(log) && page >= 1 && size >= 1
    requires Start(|Users(log)|, page, size) < Stop(|Users(log)|, page, size) <= |Users(log)|
    ensures
      var users := Users(log);
      var lo, hi := Start(|users|, page, size), Stop(|users|, page, size);
      Users(Page(log, page, size).0) == users[lo..hi] <==> CleanCut(users, lo) && CleanCut(users, hi)
  {
    var users := Users(log);
    var lo, hi := Start(|users|, page, size), Stop(|users|, page, size);
    var lower, upper := users[lo].time, if hi < |users| then Some(users[hi].time) else None;
    PageBounds(log, page, size);
    UsersInTimeOrder(log);
    UsersOfRange(log, lower, upper);
    UsersWithin(log);
    hide Users, Page, Start, Stop;
    hide Between, CleanCut;
    CutsAreClean(users, lo, hi);
  }

  /** Two turns of one moment, one to a page: the newest page shows both, the older page neither. */
  lemma TiedTurnsShareAPage(first: Message, second: Message)
    requires IsUser(first) && IsUser(second) && first.time == second.time
    ensures Page([first, second], 1, 1) == ([first, second], 2)
    ensures Page([first, second], 2, 1) == ([], 2)
  {
    var log, time := [first, second], first.time;
    FilterAll(log, IsUser);
    AllWithin(log, time, None);
    NoneWithin(log, time, Some(time));
    TwoInOrder(log);
    assert Users(log) == log && |log| == 2;
    hide Users, Page, Between, Within, InTimeOrder, Start, Stop, Bounded;
    OneTurnEach(log, 1);
    OneTurnEach(log, 2);
    BoundedByTies(log, time);
  }

  lemma OneTurnEach(log: seq<Message>, page: nat)
    requires InTimeOrder(log) && Users(log) == log && 1 <= page <= |log|
    ensures Page(log, page, 1) == (Bounded(log, |log| - page, |log| - page + 1), |log|)
  {
    PageBounds(log, page, 1);
    hide Page, Bounded, Users;
  }

  lemma TwoInOrder(log: seq<Message>)
    requires |log| == 2 && log[0].time <= log[1].time
    ensures InTimeOrder(log)
  {
    forall i, j {:trigger log[i], log[j]} | 0 <= i < j < |log|
      ensures log[i].time <= log[j].time
    {
      assert i == 0 && j == 1;
    }
  }

  lemma BoundedByTies(log: seq<Message>, time: int)
    requires |log| == 2 && Users(log) == log && log[0].time == log[1].time == time
    ensures Bounded(log, 1, 2) == Between(log, time, None)
    ensures Bounded(log, 0, 1) == Between(log, time, Some(time))
  {
    hide Users, Between;
  }

  lemma UsersWithin(log: seq<Message>)
    ensures forall u :: u in Users(log) ==> IsUser(u)
  {
    FilterMembers(log, IsUser);
  }

  /** The user messages of a time range are the range of the user messages. */
  lemma {:induction false} UsersOfRange(log: seq<Message>, lower: int, upper: Option<int>)
    ensures Users(Between(log, lower, upper)) == Between(Users(log), lower, upper)
    decreases |log|
  {
    if log != [] {
      var last, early := Last(log), Init(log);
      assert log == early + [last];
      UsersOfRange(early, lower, upper);
      BetweenSplits(early, last, lower, upper);
      UsersSplit(early, last);
      UsersSplit(Between(early, lower, upper), last);
      BetweenSplits(Users(early), last, lower, upper);
    }
  }

  lemma UsersSplit(early: seq<Message>, last: Message)
    ensures Users(early + [last]) == if IsUser(last) then Users(early) + [last] else Users(early)
  {
    FilterSplits(early, [last], IsUser);
    FilterOne(last, IsUser);
  }

  function UpperAt(users: seq<Message>, hi: nat): Option<int> {
    if hi < |users| then Some(users[hi].time) else None
  }

  lemma CutsAreClean(users: seq<Message>, lo: nat, hi: nat)
    requires InTimeOrder(users) && lo < hi <= |users| && forall u :: u in users ==> IsUser(u)
    ensures Between(users, users[lo].time, UpperAt(users, hi)) == users[lo..hi]
            <==> CleanCut(users, lo) && CleanCut(users, hi)
  {
    if CleanCut(users, hi) {
      CleanAbove(users, lo, hi);
      if CleanCut(users, lo) { CleanBelow(users, lo, hi); } else { OlderSlipsIn(users, lo, hi); }
    } else {
      TurnSlipsOut(users, lo, hi);
    }
  }

  /** A clean upper end leaves all the turns in, and no newer one. */
  lemma CleanAbove(users: seq<Message>, lo: nat, hi: nat)
    requires InTimeOrder(users) && lo < hi <= |users| && (forall u :: u in users ==> IsUser(u)) && CleanCut(users, hi)
    ensures
      var lower, upper := users[lo].time, UpperAt(users, hi);
      Between(users, lower, upper) == Between(users[..lo], lower, upper) + users[lo..hi]
  {
    var lower, upper := users[lo].time, UpperAt(users, hi);
    var older, turns, newer := users[..lo], users[lo..hi], users[hi..];
    hide InTimeOrder, CleanCut, Between, Within, UpperAt;
    TurnsFit(users, lo, hi);
    assert users == older + turns + newer;
    ThreeRanges(older, turns, newer, lower, upper);
  }

  lemma TurnsFit(users: seq<Message>, lo: nat, hi: nat)
    requires InTimeOrder(users) && lo < hi <= |users| && (forall u :: u in users ==> IsUser(u)) && CleanCut(users, hi)
    ensures forall u :: u in users[lo..hi] ==> Within(u, users[lo].time, UpperAt(users, hi))
    ensures forall u :: u in users[hi..] ==> !Within(u, users[lo].time, UpperAt(users, hi))
  {
    forall u | u in users[lo..hi]
      ensures Within(u, users[lo].time, UpperAt(users, hi))
    {
      var i :| lo <= i < hi && users[i] == u;
      assert users[i].time <= users[hi - 1].time && u in users;
    }
    forall u | u in users[hi..]
      ensures !Within(u, users[lo].time, UpperAt(users, hi))
    {
      var i :| hi <= i < |users| && users[i] == u;
    }
  }

  lemma AllWithin(ms: seq<Message>, lower: int, upper: Option<int>)
    requires forall u :: u in ms ==> Within(u, lower, upper)
    ensures Between(ms, lower, upper) == ms
  {
    FilterAll(ms, m => Within(m, lower, upper));
  }

  lemma NoneWithin(ms: seq<Message>, lower: int, upper: Option<int>)
    requires forall u :: u in ms ==> !Within(u, lower, upper)
    ensures Between(ms, lower, upper) == []
  {
    FilterNone(ms, m => Within(m, lower, upper));
  }

  lemma CleanBelow(users: seq<Message>, lo: nat, hi: nat)
    requires InTimeOrder(users) && lo < hi <= |users| && CleanCut(users, lo)
    ensures Between(users[..lo], users[lo].time, UpperAt(users, hi)) == []
  {
    forall u | u in users[..lo]
      ensures u.time < users[lo].time
    {
      var i :| 0 <= i < lo && users[i] == u;
      assert users[i].time <= users[lo - 1].time;
    }
    NoneWithin(users[..lo], users[lo].time, UpperAt(users, hi));
  }

  /** A tie at the lower end brings in an older user message. */
  lemma OlderSlipsIn(users: seq<Message>, lo: nat, hi: nat)
    requires InTimeOrder(users) && lo < hi <= |users| && forall u :: u in users ==> IsUser(u)
    requires !CleanCut(users, lo) && CleanCut(users, hi)
    ensures Between(users[..lo], users[lo].time, UpperAt(users, hi)) != []
  {
    var lower, upper := users[lo].time, UpperAt(users, hi);
    var older := users[..lo];
    assert lo > 0 && older[lo - 1] == users[lo - 1] && users[lo - 1] in users;
    assert users[lo].time <= users[hi - 1].time;
    assert Within(older[lo - 1], lower, upper);
    FilterMembers(older, m => Within(m, lower, upper));
    assert older[lo - 1] in Filter(older, m => Within(m, lower, upper));
  }

  /** A tie at the upper end leaves out a turn of the page. */
  lemma TurnSlipsOut(users: seq<Message>, lo: nat, hi: nat)
    requires InTimeOrder(users) && lo < hi <= |users| && !CleanCut(users, hi)
    ensures Between(users, users[lo].time, UpperAt(users, hi)) != users[lo..hi]
  {
    var lower, upper := users[lo].time, UpperAt(users, hi);
    FilterMembers(users, m => Within(m, lower, upper));
    assert users[hi - 1] !in Between(users, lower, upper);
    assert users[lo..hi][hi - lo - 1] == users[hi - 1];
  }

  lemma ThreeRanges(a: seq<Message>, b: seq<Message>, c: seq<Message>, lower: int, upper: Option<int>)
    requires forall u :: u in b ==> Within(u, lower, upper)
    requires forall u :: u in c ==> !Within(u, lower, upper)
    ensures Between(a + b + c, lower, upper) == Between(a, lower, upper) + b
  {
    AllWithin(b, lower, upper);
    NoneWithin(c, lower, upper);
    FilterSplits(a + b, c, m => Within(m, lower, upper));
    FilterSplits(a, b, m => Within(m, lower, upper));
  }
}
