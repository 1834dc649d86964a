/** The connection rounds of the server (src/base/Server.cpp:167-259). */
module Servers {

  datatype Status = Open | Wait | Busy | Closed

  class Connection {
    var status: Status

    /** The initial status is set by a base class that is not part of this model. */
    constructor ()
      ensures status == Open
    {
      status := Open;
    }

    /** `functor_function`: whatever the request, the connection ends open, or closed when nothing
        could be received. */
    method HandleRequest()
      modifies this
      ensures status == Open || status == Closed
    {
      var received := *;
      status := if received then Open else Closed;
    }
  }

  /** A connection in the descriptor set is marked as waiting. */
  function Marked(s: Status): Status {
    if s == Open then Wait else s
  }

  ghost function StatusesOf(list: seq<Connection>): (st: seq<Status>)
    reads list
    ensures |st| == |list|
  {
    seq(|list|, i requires 0 <= i < |list| reads list => list[i].status)
  }

  /** The connections that are not closed, in their order. */
  ghost function Survivors(list: seq<Connection>, st: seq<Status>): (r: seq<Connection>)
    requires |list| == |st|
  {
    if list == [] then []
    else
      var n := |list| - 1;
      Survivors(list[..n], st[..n]) + if st[n] == Closed then [] else [list[n]]
  }

  /** The open ones among the first `n` connections. */
  ghost function Watched(list: seq<Connection>, st: seq<Status>, n: nat): set<Connection>
    requires n <= |list| == |st|
  {
    if n == 0 then {}
    else Watched(list, st, n - 1) + if st[n - 1] == Open then {list[n - 1]} else {}
  }

  lemma {:induction false} WatchedAre(list: seq<Connection>, st: seq<Status>, n: nat)
    requires n <= |list| == |st|
    ensures forall c :: c in Watched(list, st, n) <==> exists i :: 0 <= i < n && list[i] == c && st[i] == Open
  {
    if n > 0 {
      WatchedAre(list, st, n - 1);
    }
  }

  ghost predicate Stands(list: seq<Connection>, st: seq<Status>, c: Connection, i: nat) {
    i < |list| == |st| && list[i] == c && st[i] != Closed
  }

  /** Every survivor stands in the list, not closed, and every connection that is not closed survives. */
  lemma {:induction false} SurvivorsAre(list: seq<Connection>, st: seq<Status>)
    requires |list| == |st|
    ensures forall c :: c in Survivors(list, st) <==> exists i: nat :: Stands(list, st, c, i)
  {
    if list != [] {
      var n := |list| - 1;
      SurvivorsAre(list[..n], st[..n]);
      forall c
        ensures c in Survivors(list, st) <==> exists i: nat :: Stands(list, st, c, i)
      {
        if i: nat :| Stands(list[..n], st[..n], c, i) {
          assert Stands(list, st, c, i);
        }
        if i: nat :| Stands(list, st, c, i) {
          assert i < n ==> Stands(list[..n], st[..n], c, i);
        }
        assert st[n] != Closed ==> Stands(list, st, list[n], n);
      }
    }
  }

  lemma {:induction false} SurvivorsDistinct(list: seq<Connection>, st: seq<Status>)
    requires |list| == |st| && Distinct(list)
    ensures Distinct(Survivors(list, st))
  {
    if list != [] {
      var n := |list| - 1;
      SurvivorsDistinct(list[..n], st[..n]);
      SurvivorsAre(list[..n], st[..n]);
      assert forall i: nat :: !Stands(list[..n], st[..n], list[n], i);
      assert list[n] !in Survivors(list[..n], st[..n]);
    }
  }

  /** Nothing is dropped where nothing is closed. */
  lemma {:induction false} NoneClosed(list: seq<Connection>, st: seq<Status>)
    requires |list| == |st| && forall i :: 0 <= i < |st| ==> st[i] != Closed
    ensures Survivors(list, st) == list
  {
    if list != [] {
      NoneClosed(list[..|list| - 1], st[..|list| - 1]);
    }
  }

  function MarkedTo(st: seq<Status>, k: nat): (r: seq<Status>)
    ensures |r| == |st|
  {
    seq(|st|, i requires 0 <= i < |st| => if i < k then Marked(st[i]) else st[i])
  }

  /** The first loop between two connections: `k` have been gone through. */
  ghost predicate Swept(was: seq<Connection>, st: seq<Status>, k: nat, now: seq<Connection>, i: nat,
                        stNow: seq<Status>, fdset: set<Connection>)
  {
    && k <= |was| == |st|
    && i == |Survivors(was[..k], st[..k])| && now == Survivors(was[..k], st[..k]) + was[k..]
    && stNow == MarkedTo(st, k) && fdset == Watched(was, st, k)
  }

  lemma SweptStart(was: seq<Connection>, st: seq<Status>)
    requires |was| == |st|
    ensures Swept(was, st, 0, was, 0, st, {})
  {
    assert was[..0] == [] && st[..0] == [];
  }

  /** Passing over or erasing the next connection. */
  lemma SweptStep(was: seq<Connection>, st: seq<Status>, k: nat, now: seq<Connection>, i: nat,
                  stNow: seq<Status>, fdset: set<Connection>)
    requires Swept(was, st, k, now, i, stNow, fdset) && i < |now|
    ensures k < |was| && now[i] == was[k] && stNow[k] == st[k]
    ensures st[k] == Closed ==> Swept(was, st, k + 1, now[..i] + now[i + 1..], i, stNow[k := st[k]], fdset)
    ensures st[k] != Closed ==>
      Swept(was, st, k + 1, now, i + 1, stNow[k := Marked(st[k])], if st[k] == Open then fdset + {was[k]} else fdset)
  {
    assert was[..k + 1][..k] == was[..k] && st[..k + 1][..k] == st[..k];
    assert MarkedTo(st, k + 1) == MarkedTo(st, k)[k := Marked(st[k])];
  }

  lemma SweptEnd(was: seq<Connection>, st: seq<Status>, k: nat, now: seq<Connection>, i: nat,
                 stNow: seq<Status>, fdset: set<Connection>)
    requires Swept(was, st, k, now, i, stNow, fdset) && i >= |now|
    ensures now == Survivors(was, st) && stNow == MarkedTo(st, |st|) && fdset == Watched(was, st, |st|)
  {
    assert k == |was| && was[..k] == was && st[..k] == st;
  }

  /** The survivors stand in the order of the list. */
  lemma {:induction false} SurvivorsInOrder(list: seq<Connection>, st: seq<Status>, i: nat, j: nat)
    returns (p: nat, q: nat)
    requires |list| == |st| && i < j < |Survivors(list, st)|
    ensures p < q < |list| && list[p] == Survivors(list, st)[i] && list[q] == Survivors(list, st)[j]
  {
    var n := |list| - 1;
    var init := Survivors(list[..n], st[..n]);
    if j < |init| {
      p, q := SurvivorsInOrder(list[..n], st[..n], i, j);
    } else {
      p := SurvivorStands(list[..n], st[..n], i);
      q := n;
    }
  }

  lemma {:induction false} SurvivorStands(list: seq<Connection>, st: seq<Status>, i: nat) returns (p: nat)
    requires |list| == |st| && i < |Survivors(list, st)|
    ensures p < |list| && list[p] == Survivors(list, st)[i]
  {
    var n := |list| - 1;
    if i < |Survivors(list[..n], st[..n])| {
      p := SurvivorStands(list[..n], st[..n], i);
    } else {
      p := n;
    }
  }

  // ---- runs of rounds ----

  /** The connections and their statuses at the start of a round. */
  datatype RoundStart = RoundStart(list: seq<Connection>, statuses: seq<Status>)

  /** The last `count` connections of the list. */
  ghost function Newcomers(start: RoundStart, count: nat): seq<Connection> {
    if count <= |start.list| then start.list[|start.list| - count..] else []
  }

  ghost predicate NewcomersOpen(start: RoundStart, count: nat) {
    && count <= |start.list| == |start.statuses|
    && forall i :: |start.list| - count <= i < |start.list| ==> start.statuses[i] == Open
  }

  ghost predicate ClosedAt(start: RoundStart, c: Connection) {
    |start.list| == |start.statuses|
    && exists i :: 0 <= i < |start.list| && start.list[i] == c && start.statuses[i] == Closed
  }

  /** What a round that started like this leaves in the list. */
  ghost function Left(start: RoundStart): seq<Connection> {
    if |start.list| == |start.statuses| then Survivors(start.list, start.statuses) else []
  }

  /** Round `n` starts with what the one before it left, followed by `accepts[n]` further connections. */
  ghost predicate Follows(history: seq<RoundStart>, accepts: seq<nat>, first: seq<Connection>, n: nat)
    requires n < |history| == |accepts|
  {
    var before := if n == 0 then first else Left(history[n - 1]);
    && |history[n].statuses| == |history[n].list|
    && before <= history[n].list && |history[n].list| == |before| + accepts[n]
  }

  ghost predicate Succession(history: seq<RoundStart>, accepts: seq<nat>, first: seq<Connection>,
                             last: seq<Connection>)
  {
    && |history| == |accepts|
    && (forall n :: 0 <= n < |history| ==> Follows(history, accepts, first, n))
    && last == if history == [] then first else Left(history[|history| - 1])
  }

  lemma SuccessionStarts(list: seq<Connection>)
    ensures Succession([], [], list, list)
  {
  }

  lemma SuccessionSnoc(history: seq<RoundStart>, accepts: seq<nat>, first: seq<Connection>, before: seq<Connection>,
                       start: RoundStart, count: nat, last: seq<Connection>)
    requires Succession(history, accepts, first, before) && |start.statuses| == |start.list|
    requires before <= start.list && |start.list| == |before| + count && last == Left(start)
    ensures Succession(history + [start], accepts + [count], first, last)
  {
    hide Left;
    var longer := history + [start];
    forall n | 0 <= n < |longer|
      ensures Follows(longer, accepts + [count], first, n)
    {
      assert n < |history| ==> Follows(history, accepts, first, n);
    }
  }

  lemma StaysUnlessClosed(start: RoundStart, c: Connection)
    requires |start.list| == |start.statuses| && c in start.list
    ensures c in Left(start) || ClosedAt(start, c)
  {
    SurvivorsAre(start.list, start.statuses);
    var i: nat :| i < |start.list| && start.list[i] == c;
    assert start.statuses[i] != Closed ==> Stands(start.list, start.statuses, c, i);
  }

  /** A connection in the list at the start of some round is in the last list, or was closed at the start of
      that or a later round. */
  lemma {:induction false} StaysUntilClosed(history: seq<RoundStart>, accepts: seq<nat>, first: seq<Connection>,
                                            last: seq<Connection>, n: nat, c: Connection)
    requires Succession(history, accepts, first, last) && n < |history| && c in history[n].list
    ensures c in last || exists m :: n <= m < |history| && ClosedAt(history[m], c)
    decreases |history| - n
  {
    hide Left, ClosedAt;
    assert Follows(history, accepts, first, n);
    StaysUnlessClosed(history[n], c);
    if c in Left(history[n]) && n + 1 < |history| {
      var left := Left(history[n]);
      assert Follows(history, accepts, first, n + 1);
      assert c in history[n + 1].list[..|left|];
      StaysUntilClosed(history, accepts, first, last, n + 1, c);
    }
  }

  lemma NoneForgotten(history: seq<RoundStart>, accepts: seq<nat>, first: seq<Connection>, last: seq<Connection>)
    requires Succession(history, accepts, first, last)
    ensures forall n, c :: 0 <= n < |history| && c in history[n].list ==>
      c in last || exists m :: n <= m < |history| && ClosedAt(history[m], c)
    ensures forall c :: c in first ==> c in last || exists m :: 0 <= m < |history| && ClosedAt(history[m], c)
  {
    forall n, c | 0 <= n < |history| && c in history[n].list
      ensures c in last || exists m :: n <= m < |history| && ClosedAt(history[m], c)
    {
      StaysUntilClosed(history, accepts, first, last, n, c);
    }
    if history != [] {
      assert Follows(history, accepts, first, 0);
      assert forall c :: c in first ==> c in history[0].list[..|first|];
    }
  }

  ghost predicate Distinct(list: seq<Connection>) {
    forall i, j :: 0 <= i < j < |list| ==> list[i] != list[j]
  }

  class Server {
    var openConnections: seq<Connection>

    ghost predicate Valid()
      reads this
    {
      Distinct(openConnections)
    }

    ghost predicate NoneBusy()
      reads this, openConnections
    {
      forall c :: c in openConnections ==> c.status != Busy
    }

    constructor ()
      ensures Valid() && openConnections == []
    {
      openConnections := [];
    }

    /** `waitForConnection` enters an accepted connection at the end. */
    method Accept() returns (c: Connection)
      requires Valid()
      modifies this
      ensures Valid() && fresh(c) && c.status == Open && openConnections == old(openConnections) + [c]
    {
      c := new Connection();
      openConnections := openConnections + [c];
    }

    /** Any number of connections between two rounds. */
    method AcceptSome(count: nat)
      requires Valid()
      modifies this
      ensures Valid() && |openConnections| == old(|openConnections|) + count
      ensures old(openConnections) <= openConnections
      ensures forall i :: old(|openConnections|) <= i < |openConnections| ==>
        fresh(openConnections[i]) && openConnections[i].status == Open
    {
      for k := 0 to count
        invariant Valid() && |openConnections| == old(|openConnections|) + k
        invariant old(openConnections) <= openConnections
        invariant forall i :: old(|openConnections|) <= i < |openConnections| ==>
          fresh(openConnections[i]) && openConnections[i].status == Open
      {
        var _ := Accept();
      }
    }

    /** The first loop of a round: open connections enter the descriptor set and wait, closed ones
        are erased. */
    method Prepare() returns (fdset: set<Connection>)
      requires Valid()
      modifies this, openConnections
      ensures Valid()
      ensures var was, st := old(openConnections), old(StatusesOf(openConnections));
        && openConnections == Survivors(was, st)
        && fdset == Watched(was, st, |st|)
        && StatusesOf(was) == MarkedTo(st, |st|)
    {
      hide Swept, Distinct, StatusesOf, Survivors, Watched;
      fdset := {};
      ghost var was, st, k := openConnections, StatusesOf(openConnections), 0;
      var i: nat := 0;
      SweptStart(was, st);
      while i < |openConnections|
        invariant k <= |was| && Swept(was, st, k, openConnections, i, StatusesOf(was), fdset)
        decreases |was| - k
      {
        SweptStep(was, st, k, openConnections, i, StatusesOf(was), fdset);
        i, fdset := PrepareOne(i, fdset, was, k);
        k := k + 1;
      }
      SweptEnd(was, st, k, openConnections, i, StatusesOf(was), fdset);
      SurvivorsDistinct(was, st);
    }

    /** One turn of the first loop, at the connection that was entered as number `k`. */
    method PrepareOne(i: nat, fdset: set<Connection>, ghost was: seq<Connection>, ghost k: nat)
      returns (i': nat, fdset': set<Connection>)
      requires i < |openConnections| && k < |was| && openConnections[i] == was[k] && Distinct(was)
      modifies this, was[k]
      ensures var st, list := old(StatusesOf(was)), old(openConnections);
        && StatusesOf(was) == st[k := Marked(st[k])]
        && fdset' == (if st[k] == Open then fdset + {was[k]} else fdset)
        && if st[k] == Closed then i' == i && openConnections == list[..i] + list[i + 1..]
           else i' == i + 1 && openConnections == list
    {
      i', fdset' := i, fdset;
      var c := openConnections[i];
      if c.status == Open {
        fdset' := fdset' + {c};
        c.status := Wait;
      }
      if c.status == Closed {
        openConnections := openConnections[..i] + openConnections[i + 1..];
      } else {
        i' := i + 1;
      }
    }

    /** `select`, with one set to watch for reading and for writing and to report in: a positive count
        may leave any part of the watched connections in it. With none watched there is no such count. */
    method Select(fdset: set<Connection>) returns (retval: int, ready: set<Connection>)
      ensures ready <= fdset && (ready != {} ==> retval > 0) && (fdset == {} ==> retval <= 0)
    {
      retval := *;
      ready := {};
      if retval > 0 && fdset != {} {
        var rest := fdset;
        while rest != {}
          invariant ready <= fdset && rest <= fdset
          decreases rest
        {
          var d :| d in rest;
          var data := *;
          if data {
            ready := ready + {d};
          }
          rest := rest - {d};
        }
      } else if retval > 0 {
        retval := 0;
      }
    }

    /** The second loop: connections with data are served, the others are open again. */
    method Dispatch(ready: set<Connection>)
      requires Valid()
      modifies openConnections
      ensures forall c :: c in openConnections ==>
        if c in ready then c.status == Open || c.status == Closed
        else c.status == if old(c.status) == Wait then Open else old(c.status)
    {
      for i := 0 to |openConnections|
        invariant forall j :: 0 <= j < |openConnections| ==>
          var c := openConnections[j];
          if j >= i then c.status == old(c.status)
          else if c in ready then c.status == Open || c.status == Closed
          else c.status == if old(c.status) == Wait then Open else old(c.status)
      {
        var c := openConnections[i];
        if c in ready {
          c.status := Busy;
          c.HandleRequest();
        } else if c.status == Wait {
          c.status := Open;
        }
      }
    }

    /** One round. Only closed connections are dropped and the rest keep their order; none is busy at
        the end. A round with data leaves every survivor open, or closed if it was served; a round
        without leaves every survivor waiting. Only connections that were open are watched. */
    method Round() returns (data: bool, ghost fdset: set<Connection>, ghost served: set<Connection>)
      requires Valid() && NoneBusy()
      modifies this, openConnections
      ensures Valid() && NoneBusy()
      ensures openConnections == Survivors(old(openConnections), old(StatusesOf(openConnections)))
      ensures forall c :: c in openConnections ==> c in old(openConnections)
      ensures forall c :: c in fdset <==> c in old(openConnections) && old(c.status) == Open
      ensures served <= fdset && (served != {} ==> data) && (fdset == {} ==> !data)
      ensures data ==> forall c :: c in openConnections ==>
        c.status == Open || (c.status == Closed && c in served)
      ensures !data ==> forall c :: c in openConnections ==> c.status == Wait
    {
      ghost var was, st := openConnections, StatusesOf(openConnections);
      var watched := Prepare();
      fdset := watched;
      AfterPrepare(was, st);
      var retval, ready := Select(watched);
      served := ready;
      data := retval > 0;
      if !data {
        return;
      }
      Dispatch(ready);
    }

    lemma AfterPrepare(was: seq<Connection>, st: seq<Status>)
      requires |was| == |st| && forall i :: 0 <= i < |st| ==> st[i] != Busy
      requires openConnections == Survivors(was, st) && StatusesOf(was) == MarkedTo(st, |st|)
      ensures forall i :: 0 <= i < |openConnections| ==>
        openConnections[i] in was && openConnections[i].status == Wait
      ensures forall c :: c in Watched(was, st, |st|) <==> exists i :: 0 <= i < |was| && was[i] == c && st[i] == Open
    {
      hide Watched, Survivors;
      WatchedAre(was, st, |st|);
      SurvivorsAre(was, st);
      forall i | 0 <= i < |openConnections|
        ensures openConnections[i] in was && openConnections[i].status == Wait
      {
        assert openConnections[i] in Survivors(was, st);
        SurvivorWaits(was, st, openConnections[i]);
      }
    }

    lemma SurvivorWaits(was: seq<Connection>, st: seq<Status>, c: Connection)
      requires |was| == |st| && forall i :: 0 <= i < |st| ==> st[i] != Busy
      requires exists i: nat :: Stands(was, st, c, i)
      requires StatusesOf(was) == MarkedTo(st, |st|)
      ensures c in was && c.status == Wait
    {
      var j: nat :| Stands(was, st, c, j);
      assert StatusesOf(was)[j] == was[j].status;
      assert MarkedTo(st, |st|)[j] == Marked(st[j]);
    }

    /** A round and the connections accepted before it. */
    method AcceptAndRound(count: nat) returns (data: bool, ghost start: RoundStart)
      requires Valid() && NoneBusy()
      modifies this, openConnections
      ensures Valid() && NoneBusy()
      ensures |start.list| == |start.statuses| == old(|openConnections|) + count && old(openConnections) <= start.list
      ensures NewcomersOpen(start, count) && forall c :: c in Newcomers(start, count) ==> fresh(c)
      ensures openConnections == Left(start)
      ensures !data ==> forall c :: c in openConnections ==> c.status == Wait
      ensures data ==> forall c :: c in openConnections ==> c.status == Open || c.status == Closed
      ensures forall c :: c in openConnections ==> c in old(openConnections) || fresh(c)
    {
      hide Survivors;
      AcceptSome(count);
      assert forall i :: 0 <= i < |openConnections| ==>
        openConnections[i] in old(openConnections) || fresh(openConnections[i]);
      start := RoundStart(openConnections, StatusesOf(openConnections));
      ghost var fdset, served;
      data, fdset, served := Round();
    }

    /** Any run of rounds, with any number of connections accepted before each of them. The history holds the
        list and the statuses at the start of each round: each list is what was not closed of the one before
        it, in its order, followed by the newly accepted connections. None is busy at any round boundary, and
        a last round without data leaves all of them waiting, the accepted ones too. */
    method Run(accepts: seq<nat>) returns (data: bool, ghost history: seq<RoundStart>)
      requires Valid() && NoneBusy()
      modifies this, openConnections
      ensures Valid() && NoneBusy()
      ensures Succession(history, accepts, old(openConnections), openConnections)
      ensures forall n :: 0 <= n < |history| ==> NewcomersOpen(history[n], accepts[n])
      ensures forall n, c :: 0 <= n < |history| && c in Newcomers(history[n], accepts[n]) ==> fresh(c)
      ensures forall c :: c in old(openConnections) ==>
        c in openConnections || exists m :: 0 <= m < |history| && ClosedAt(history[m], c)
      ensures forall n, c :: 0 <= n < |history| && c in history[n].list ==>
        c in openConnections || exists m :: n <= m < |history| && ClosedAt(history[m], c)
      ensures accepts != [] && !data ==> forall c :: c in openConnections ==> c.status == Wait
      ensures accepts != [] && data ==> forall c :: c in openConnections ==> c.status == Open || c.status == Closed
      ensures forall c :: c in openConnections ==> c in old(openConnections) || fresh(c)
    {
      hide Survivors, Succession, Left, ClosedAt, Newcomers, NewcomersOpen;
      SuccessionStarts(openConnections);
      data, history := false, [];
      for n := 0 to |accepts|
        invariant Valid() && NoneBusy()
        invariant Succession(history, accepts[..n], old(openConnections), openConnections)
        invariant |history| == n
        invariant forall m :: 0 <= m < n ==> NewcomersOpen(history[m], accepts[m])
        invariant forall m, c :: 0 <= m < n && c in Newcomers(history[m], accepts[m]) ==> fresh(c)
        invariant n > 0 && !data ==> forall c :: c in openConnections ==> c.status == Wait
        invariant n > 0 && data ==> forall c :: c in openConnections ==> c.status == Open || c.status == Closed
        invariant forall c :: c in openConnections ==> c in old(openConnections) || fresh(c)
      {
        ghost var before := openConnections;
        assert forall i :: 0 <= i < |openConnections| ==>
          openConnections[i] in old(openConnections) || fresh(openConnections[i]);
        ghost var start;
        data, start := AcceptAndRound(accepts[n]);
        SuccessionSnoc(history, accepts[..n], old(openConnections), before, start, accepts[n], openConnections);
        assert accepts[..n + 1] == accepts[..n] + [accepts[n]];
        history := history + [start];
      }
      assert accepts[..|accepts|] == accepts;
      NoneForgotten(history, accepts, old(openConnections), openConnections);
    }

    /** A round without data leaves every connection waiting, and a waiting connection is not watched.
        So unless a new one is accepted, no later round watches or serves any of them, however many
        rounds there are: the connections watched and served in any of them are none. */
    method Starve(rounds: nat) returns (ghost watched: set<Connection>, ghost served: set<Connection>)
      requires Valid() && forall c :: c in openConnections ==> c.status == Wait
      modifies this, openConnections
      ensures Valid() && openConnections == old(openConnections)
      ensures forall c :: c in openConnections ==> c.status == Wait
      ensures watched == {} && served == {}
    {
      watched, served := {}, {};
      for n := 0 to rounds
        invariant Valid() && openConnections == old(openConnections)
        invariant forall c :: c in openConnections ==> c.status == Wait
        invariant watched == {} && served == {}
      {
        NoneClosed(openConnections, StatusesOf(openConnections));
        var data;
        ghost var fdset, now;
        data, fdset, now := Round();
        watched, served := watched + fdset, served + now;
        assert fdset == {};
      }
    }
  }
}
