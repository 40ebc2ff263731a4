/** Downloading vertices from peers through a sliding window: they may arrive in any order and are
    handed over in the order they were asked for. A vertex nobody can deliver is dropped. */
module Downloader {
  import opened Collections

  type Id = nat
  type Connection = nat

  // ---- choosing a connection

  /** `tries` records the index of every connection that was picked. */
  datatype TxDetails = TxDetails(connections: seq<Connection>, requestedIndex: nat, retryCount: nat, requested: bool, tries: seq<nat>)

  /** Connections are used up one after the other, each of them at most `retries` times. */
  ghost predicate FairUse(d: TxDetails, retries: nat) {
    && d.requestedIndex <= |d.connections| && d.retryCount < retries
    && (d.requestedIndex == |d.connections| ==> d.retryCount == 0)
    && forall i: nat :: multiset(d.tries)[i] == if i < d.requestedIndex then retries else if i == d.requestedIndex then d.retryCount else 0
  }

  /** Some connection that is not used up is open. */
  predicate Reachable(d: TxDetails, connected: set<Connection>) {
    exists i :: d.requestedIndex <= i < |d.connections| && d.connections[i] in connected
  }

  /** The place of the connection that was picked last. */
  function LastTry(d: TxDetails): nat
    requires d.tries != []
  {
    d.tries[|d.tries| - 1]
  }

  /** A connection is found exactly if one of those left is open, and then it is the first such. */
  method GetConnection(details: TxDetails, connected: set<Connection>, retries: nat) returns (d: TxDetails, connection: Option<Connection>)
    requires FairUse(details, retries)
    ensures FairUse(d, retries) && d.connections == details.connections && d.requested == details.requested
    ensures details.tries <= d.tries
    ensures connection.Some? <==> Reachable(details, connected)
    ensures connection.Some? ==> details.tries < d.tries && details.requestedIndex <= LastTry(d) < |d.connections|
    ensures connection.Some? ==> connection.value == d.connections[LastTry(d)] && connection.value in connected
    ensures connection.Some? ==> forall i | details.requestedIndex <= i < LastTry(d) :: d.connections[i] !in connected
    ensures connection.None? ==> d.requestedIndex == |d.connections|
  {
    d, connection := details, None;
    while connection.None?
      invariant FairUse(d, retries) && d.connections == details.connections && d.requested == details.requested
      invariant details.tries <= d.tries && details.requestedIndex <= d.requestedIndex
      invariant connection.None? ==> forall i | details.requestedIndex <= i < d.requestedIndex :: d.connections[i] !in connected
      invariant connection.Some? ==> details.tries < d.tries && details.requestedIndex <= LastTry(d) < |d.connections|
      invariant connection.Some? ==> connection.value == d.connections[LastTry(d)] && connection.value in connected
      invariant connection.Some? ==> forall i | details.requestedIndex <= i < LastTry(d) :: d.connections[i] !in connected
      decreases |d.connections| - d.requestedIndex, retries - d.retryCount, connection.None?
    {
      if |d.connections| <= d.requestedIndex {
        break;
      }
      var index := d.requestedIndex;
      connection := Some(d.connections[index]);
      d := d.(retryCount := d.retryCount + 1, tries := d.tries + [index]);
      if d.retryCount >= retries {
        d := d.(requestedIndex := d.requestedIndex + 1, retryCount := 0);
      }
      if connection.value !in connected {
        connection := None;
      }
    }
  }

  /** The vertices that can be asked of someone. */
  function ReachableIds(pending: map<Id, TxDetails>, connected: set<Connection>): set<Id> {
    set id | id in pending && Reachable(pending[id], connected)
  }

  /** The queues once all free places of the window are taken: those that wait start in order, and
      one that can be asked of nobody is dropped. */
  function Started(waiting: seq<Id>, downloading: seq<Id>, reachable: set<Id>, windowSize: nat): (seq<Id>, seq<Id>) {
    if waiting == [] || |downloading| >= windowSize then (waiting, downloading)
    else Started(waiting[1..], if waiting[0] in reachable then downloading + [waiting[0]] else downloading, reachable, windowSize)
  }

  /** How many at the head of the window have arrived. */
  function ReadyCount(downloading: seq<Id>, buffer: set<Id>): (n: nat)
    ensures n <= |downloading| && (forall i | 0 <= i < n :: downloading[i] in buffer) && (n < |downloading| ==> downloading[n] !in buffer)
  {
    if downloading == [] || downloading[0] !in buffer then 0 else 1 + ReadyCount(downloading[1..], buffer)
  }

  // ---- the queues

  ghost predicate Queues(pending: set<Id>, waiting: seq<Id>, downloading: seq<Id>, buffer: set<Id>, windowSize: nat) {
    && Distinct(downloading + waiting) && pending == Elems(downloading + waiting)
    && |downloading| <= windowSize && buffer <= Elems(downloading)
  }

  /** Each request has a ticket, its number. `ids` are those delivered, downloading and waiting, in
      this order, and `tickets` are their tickets; the other tickets were dropped. */
  ghost predicate Logged(requests: seq<Id>, ids: seq<Id>, tickets: seq<nat>, dropped: set<nat>) {
    && |ids| == |tickets|
    && (forall i | 0 <= i < |ids| :: tickets[i] < |requests| && requests[tickets[i]] == ids[i])
    && (forall i, j | 0 <= i < j < |tickets| :: tickets[i] < tickets[j])
    && forall n: nat :: n < |requests| <==> (n in tickets || n in dropped)
  }

  /** Results come in the order of the requests: before a delivered one, every earlier request was
      delivered or dropped. */
  lemma {:induction false} InRequestOrder(requests: seq<Id>, ids: seq<Id>, tickets: seq<nat>, dropped: set<nat>, k: nat, n: nat)
    requires Logged(requests, ids, tickets, dropped) && k < |ids| && n < tickets[k]
    ensures n in dropped || exists i :: 0 <= i < k && tickets[i] == n && ids[i] == requests[n]
  {
    if n !in dropped {
      var i :| 0 <= i < |tickets| && tickets[i] == n;
      assert i < k;
    }
  }

  lemma {:induction false} NewRequest(requests: seq<Id>, ids: seq<Id>, tickets: seq<nat>, dropped: set<nat>, id: Id)
    requires Logged(requests, ids, tickets, dropped)
    ensures Logged(requests + [id], ids + [id], tickets + [|requests|], dropped)
  {
    var ts := tickets + [|requests|];
    forall n: nat
      ensures n < |requests + [id]| <==> (n in ts || n in dropped)
    {
      assert n == |requests| ==> ts[|tickets|] == n;
    }
  }

  function Without<T>(s: seq<T>, p: nat): seq<T>
    requires p < |s|
  {
    s[..p] + s[p + 1..]
  }

  lemma {:induction false} DroppedRequest(requests: seq<Id>, ids: seq<Id>, tickets: seq<nat>, dropped: set<nat>, p: nat)
    requires Logged(requests, ids, tickets, dropped) && p < |ids|
    ensures Logged(requests, Without(ids, p), Without(tickets, p), dropped + {tickets[p]})
  {
    var ts := Without(tickets, p);
    forall n: nat
      ensures n < |requests| <==> (n in ts || n in dropped + {tickets[p]})
    {
      if n in tickets && n != tickets[p] {
        var i :| 0 <= i < |tickets| && tickets[i] == n;
        assert ts[if i < p then i else i - 1] == n;
      }
    }
  }

  function Place(s: seq<Id>, id: Id): (p: nat)
    requires id in s
    ensures p < |s| && s[p] == id && id !in s[..p]
  {
    if s[0] == id then 0 else 1 + Place(s[1..], id)
  }

  lemma {:induction false} WithoutElems(s: seq<Id>, p: nat)
    requires Distinct(s) && p < |s|
    ensures Distinct(Without(s, p)) && Elems(Without(s, p)) == Elems(s) - {s[p]}
  {
    var t := Without(s, p);
    forall i | 0 <= i < |s| && i != p
      ensures s[i] in t
    {
      assert t[if i < p then i else i - 1] == s[i];
    }
    assert forall i | 0 <= i < |t| :: t[i] == s[if i < p then i else i + 1];
  }

  lemma {:induction false} Apart(pending: set<Id>, waiting: seq<Id>, downloading: seq<Id>, buffer: set<Id>, windowSize: nat, id: Id)
    requires Queues(pending, waiting, downloading, buffer, windowSize) && id in downloading
    ensures id !in waiting && id in pending && |downloading| <= windowSize
  {
    var p := Place(downloading, id);
    forall j | 0 <= j < |waiting|
      ensures waiting[j] != id
    {
      assert (downloading + waiting)[p] == id && (downloading + waiting)[|downloading| + j] == waiting[j];
    }
    assert (downloading + waiting)[p] in Elems(downloading + waiting);
  }

  lemma {:induction false} NotBefore(pending: set<Id>, waiting: seq<Id>, downloading: seq<Id>, buffer: set<Id>, windowSize: nat, k: nat)
    requires Queues(pending, waiting, downloading, buffer, windowSize) && k < |downloading|
    ensures downloading[k] !in Elems(downloading[..k])
  {
    var all := downloading + waiting;
    assert forall i | 0 <= i <= k :: all[i] == downloading[i];
  }

  lemma {:induction false} HeadStarts(pending: set<Id>, waiting: seq<Id>, downloading: seq<Id>, buffer: set<Id>, windowSize: nat)
    requires Queues(pending, waiting, downloading, buffer, windowSize) && waiting != [] && |downloading| < windowSize
    ensures Queues(pending, waiting[1..], downloading + [waiting[0]], buffer, windowSize)
    ensures Queues(pending - {waiting[0]}, waiting[1..], downloading, buffer, windowSize)
    ensures waiting[0] in pending && waiting[0] !in downloading && waiting[0] !in waiting[1..] && waiting[0] !in buffer
  {
    var all := downloading + waiting;
    assert (downloading + [waiting[0]]) + waiting[1..] == all;
    WithoutElems(all, |downloading|);
    assert Without(all, |downloading|) == downloading + waiting[1..];
    assert all[|downloading|] == waiting[0] && waiting[0] in Elems(all);
    assert forall i | 0 <= i < |downloading| :: all[i] == downloading[i];
    assert forall i | 0 < i < |waiting| :: all[|downloading| + i] == waiting[i];
  }

  lemma {:induction false} OneLeaves(pending: set<Id>, waiting: seq<Id>, downloading: seq<Id>, buffer: set<Id>, windowSize: nat, p: nat)
    requires Queues(pending, waiting, downloading, buffer, windowSize) && p < |downloading|
    ensures Queues(pending - {downloading[p]}, waiting, Without(downloading, p), buffer - {downloading[p]}, windowSize)
  {
    var all := downloading + waiting;
    WithoutElems(all, p);
    assert Without(all, p) == Without(downloading, p) + waiting && all[p] == downloading[p];
    forall i | 0 <= i < |downloading| && i != p
      ensures downloading[i] in Without(downloading, p)
    {
      assert Without(downloading, p)[if i < p then i else i - 1] == downloading[i];
    }
  }

  lemma {:induction false} OneAsked(pending: set<Id>, waiting: seq<Id>, downloading: seq<Id>, buffer: set<Id>, windowSize: nat, id: Id)
    requires Queues(pending, waiting, downloading, buffer, windowSize) && id !in pending
    ensures Queues(pending + {id}, waiting + [id], downloading, buffer, windowSize) && id !in waiting
  {
    assert downloading + (waiting + [id]) == (downloading + waiting) + [id];
    assert forall i | 0 <= i < |waiting| :: (downloading + waiting)[|downloading| + i] == waiting[i];
  }

  function NewDetails(connection: Connection): TxDetails { TxDetails([connection], 0, 0, false, []) }

  /** The request is being downloaded, of the same connections, one of which was tried just now. */
  ghost predicate SameRequest(before: TxDetails, after: TxDetails) {
    after.requested && after.connections == before.connections && before.tries < after.tries
  }

  /** What is left was started, if it waited and is being downloaded, and is as it was otherwise. */
  ghost predicate Kept(before: map<Id, TxDetails>, after: map<Id, TxDetails>, waited: seq<Id>, downloading: seq<Id>) {
    && after.Keys <= before.Keys
    && forall id | id in after :: if id in waited && id in downloading then SameRequest(before[id], after[id]) else after[id] == before[id]
  }

  /** The vertex is asked for and nobody is left to ask. */
  predicate Gone(pending: map<Id, TxDetails>, id: Id, connected: set<Connection>) {
    id in pending && !Reachable(pending[id], connected)
  }

  lemma {:induction false} StartsFair(connection: Connection, retries: nat)
    requires retries > 0
    ensures FairUse(NewDetails(connection), retries)
  {
  }

  lemma {:induction false} StaysFair(d: TxDetails, connection: Connection, retries: nat)
    requires FairUse(d, retries)
    ensures FairUse(d.(connections := d.connections + [connection]), retries)
  {
  }

  lemma {:induction false} NoneStarted(pending: map<Id, TxDetails>, waiting: seq<Id>, downloading: seq<Id>, buffer: set<Id>, windowSize: nat)
    requires Queues(pending.Keys, waiting, downloading, buffer, windowSize)
    ensures Kept(pending, pending, waiting, downloading) && forall id | id in waiting :: id !in downloading && id in pending
  {
    forall id | id in downloading
      ensures id !in waiting
    {
      Apart(pending.Keys, waiting, downloading, buffer, windowSize, id);
    }
    assert forall i | 0 <= i < |waiting| :: (downloading + waiting)[|downloading| + i] == waiting[i];
  }

  lemma {:induction false} SameReach(d: TxDetails, connected: set<Connection>)
    ensures Reachable(d.(requested := false), connected) <==> Reachable(d, connected)
  {
    var e := d.(requested := false);
    assert e.connections == d.connections && e.requestedIndex == d.requestedIndex;
  }

  class Downloader {
    const windowSize: nat
    const retries: nat
    var pending: map<Id, TxDetails>
    var waiting: seq<Id>
    var downloading: seq<Id>
    var buffer: set<Id>
    var delivered: seq<Id>
    ghost var requests: seq<Id>
    ghost var tickets: seq<nat>
    ghost var dropped: set<nat>

    constructor (windowSize: nat, retries: nat)
      requires retries > 0
      ensures Valid() && this.windowSize == windowSize && this.retries == retries && requests == [] && delivered == []
      ensures pending == map[] && waiting == [] && downloading == [] && buffer == {}
    {
      this.windowSize, this.retries := windowSize, retries;
      pending, waiting, downloading, buffer, delivered := map[], [], [], {}, [];
      requests, tickets, dropped := [], [], {};
    }

    ghost predicate Valid()
      reads this
    {
      && retries > 0
      && Queues(pending.Keys, waiting, downloading, buffer, windowSize)
      && Logged(requests, delivered + downloading + waiting, tickets, dropped)
      && (forall id | id in pending :: FairUse(pending[id], retries))
      && forall id | id in waiting :: id in pending && !pending[id].requested
    }

    /** Nothing that has arrived could be handed over now. */
    ghost predicate NoneReady()
      reads this
    {
      downloading == [] || downloading[0] !in buffer
    }

    /** Nothing that waits could be asked for now. */
    ghost predicate Busy()
      reads this
    {
      waiting == [] || |downloading| >= windowSize
    }

    method GetTx(id: Id, connection: Connection, inStorage: bool, connected: set<Connection>)
      requires Valid()
      modifies this
      ensures Valid() && delivered == old(delivered) && buffer == old(buffer)
      ensures requests == if inStorage || id in old(pending) then old(requests) else old(requests) + [id]
      ensures inStorage ==> pending == old(pending)
      ensures !inStorage && id in old(pending) ==>
                pending == old(pending)[id := old(pending)[id].(connections := old(pending)[id].connections + [connection])]
      ensures inStorage || id in old(pending) ==> waiting == old(waiting) && downloading == old(downloading)
      ensures !inStorage && id !in old(pending) ==>
                && (waiting, downloading) == Started(old(waiting) + [id], old(downloading), ReachableIds(old(pending)[id := NewDetails(connection)], connected), windowSize)
                && Kept(old(pending)[id := NewDetails(connection)], pending, old(waiting) + [id], downloading)
      ensures old(NoneReady()) ==> NoneReady()
      ensures old(Busy()) ==> Busy()
    {
      hide Logged, Queues, FairUse, Started, ReachableIds;
      if inStorage { return; }
      if id in pending {
        var details := pending[id];
        StaysFair(details, connection, retries);
        pending := pending[id := details.(connections := details.connections + [connection])];
        assert pending.Keys == old(pending).Keys;
        return;
      }
      NewRequest(requests, delivered + downloading + waiting, tickets, dropped, id);
      assert delivered + downloading + (waiting + [id]) == (delivered + downloading + waiting) + [id];
      OneAsked(pending.Keys, waiting, downloading, buffer, windowSize, id);
      StartsFair(connection, retries);
      pending := pending[id := NewDetails(connection)];
      assert pending.Keys == old(pending).Keys + {id};
      waiting := waiting + [id];
      requests, tickets := requests + [id], tickets + [|requests|];
      DownloadNextIfPossible(connected);
    }

    method DownloadNextIfPossible(connected: set<Connection>)
      requires Valid()
      modifies this
      ensures Valid() && Busy() && requests == old(requests) && delivered == old(delivered) && buffer == old(buffer)
      ensures (waiting, downloading) == Started(old(waiting), old(downloading), ReachableIds(old(pending), connected), windowSize)
      ensures Kept(old(pending), pending, old(waiting), downloading)
      ensures old(NoneReady()) ==> NoneReady()
    {
      hide Logged, Queues, FairUse, Reachable;
      ghost var reachable := ReachableIds(pending, connected);
      NoneStarted(pending, waiting, downloading, buffer, windowSize);
      while waiting != [] && |downloading| < windowSize
        invariant Valid() && requests == old(requests) && delivered == old(delivered) && buffer == old(buffer)
        invariant Started(waiting, downloading, reachable, windowSize) == Started(old(waiting), old(downloading), reachable, windowSize)
        invariant Kept(old(pending), pending, old(waiting), downloading)
        invariant forall id | id in waiting :: id in old(waiting) && id !in downloading
        invariant old(NoneReady()) ==> NoneReady()
        decreases |waiting|
      {
        StartNextDownload(connected);
      }
    }

    method StartNextDownload(connected: set<Connection>)
      requires Valid() && waiting != [] && |downloading| < windowSize
      modifies this
      ensures Valid() && waiting == old(waiting)[1..] && requests == old(requests) && delivered == old(delivered) && buffer == old(buffer)
      ensures old(waiting)[0] in old(pending) && old(waiting)[0] !in waiting
      ensures var id := old(waiting)[0];
              if Reachable(old(pending)[id], connected)
              then downloading == old(downloading) + [id] && id in pending && pending == old(pending)[id := pending[id]] && SameRequest(old(pending)[id], pending[id])
              else downloading == old(downloading) && pending == old(pending) - {id}
      ensures old(NoneReady()) ==> NoneReady()
    {
      hide Logged, Queues, Without, Reachable;
      HeadStarts(pending.Keys, waiting, downloading, buffer, windowSize);
      var id := waiting[0];
      var details, connection := GetConnection(pending[id], connected, retries);
      if connection.None? {
        ghost var p := |delivered| + |downloading|;
        LogSizes(requests, delivered + downloading + waiting, tickets, dropped);
        DroppedRequest(requests, delivered + downloading + waiting, tickets, dropped, p);
        assert Without(delivered + downloading + waiting, p) == delivered + downloading + waiting[1..] by { WithoutHead(delivered + downloading, waiting); }
        waiting := waiting[1..];
        pending := pending - {id};
        tickets, dropped := Without(tickets, p), dropped + {tickets[p]};
      } else {
        assert !details.requested;
        assert delivered + (downloading + [id]) + waiting[1..] == delivered + downloading + waiting;
        pending := pending[id := details.(requested := true)];
        waiting := waiting[1..];
        downloading := downloading + [id];
        assert old(pending).Keys == pending.Keys;
      }
    }

    /** A vertex arrives. Only vertices that are being downloaded are answered for. */
    method OnNewTx(id: Id, connected: set<Connection>)
      requires Valid() && (id in pending ==> id in downloading)
      modifies this
      ensures Valid() && requests == old(requests)
      ensures id !in old(pending) ==> Unmoved()
      ensures id in old(pending) ==> HandedOver(old(buffer) + {id}, connected) && NoneReady()
      ensures old(Busy()) ==> Busy()
    {
      hide Logged, FairUse;
      if id !in pending { return; }
      buffer := buffer + {id};
      CheckDownloadingQueue(connected);
    }

    twostate predicate Unmoved()
      reads this
    {
      delivered == old(delivered) && buffer == old(buffer) && waiting == old(waiting) && downloading == old(downloading) && pending == old(pending)
    }

    /** Exactly those at the head of the window that are in `arrived` were handed over, and their
        places were given to those that wait. */
    twostate predicate HandedOver(arrived: set<Id>, connected: set<Connection>)
      reads this
    {
      var n := ReadyCount(old(downloading), arrived);
      var ready := old(downloading)[..n];
      var left := old(pending) - Elems(ready);
      && delivered == old(delivered) + ready && buffer == arrived - Elems(ready) && Kept(left, pending, old(waiting), downloading)
      && (waiting, downloading) == if n == 0 then (old(waiting), old(downloading))
                                   else Started(old(waiting), old(downloading)[n..], ReachableIds(left, connected), windowSize)
    }

    method CheckDownloadingQueue(connected: set<Connection>)
      requires Valid()
      modifies this
      ensures Valid() && requests == old(requests) && HandedOver(old(buffer), connected) && NoneReady()
      ensures old(Busy()) ==> Busy()
    {
      hide Logged, Queues, FairUse, Reachable, Kept;
      var count := HandOver();
      if count > 0 {
        DownloadNextIfPossible(connected);
      } else {
        NoneStarted(pending, waiting, downloading, buffer, windowSize);
      }
    }

    method HandOver() returns (count: nat)
      requires Valid()
      modifies this
      ensures Valid() && requests == old(requests) && waiting == old(waiting) && NoneReady()
      ensures count == ReadyCount(old(downloading), old(buffer))
      ensures downloading == old(downloading)[count..] && delivered == old(delivered) + old(downloading)[..count]
      ensures buffer == old(buffer) - Elems(old(downloading)[..count]) && pending == old(pending) - Elems(old(downloading)[..count])
    {
      hide Logged, Queues, FairUse;
      count := 0;
      ghost var window, arrived := downloading, buffer;
      while downloading != [] && downloading[0] in buffer
        invariant Valid() && requests == old(requests) && waiting == old(waiting) && count <= |window|
        invariant downloading == window[count..] && delivered == old(delivered) + window[..count]
        invariant buffer == arrived - Elems(window[..count]) && pending == old(pending) - Elems(window[..count])
        invariant forall i | 0 <= i < count :: window[i] in arrived
        decreases |downloading|
      {
        OneMore(window, count);
        HandOverHead();
        count := count + 1;
      }
      if count < |window| {
        NotBefore(old(pending).Keys, waiting, window, arrived, windowSize, count);
      }
      CountIs(window, arrived, count);
    }

    method HandOverHead()
      requires Valid() && downloading != [] && downloading[0] in buffer
      modifies this
      ensures Valid() && requests == old(requests) && waiting == old(waiting)
      ensures downloading == old(downloading)[1..] && delivered == old(delivered) + [old(downloading)[0]]
      ensures buffer == old(buffer) - {old(downloading)[0]} && pending == old(pending) - {old(downloading)[0]}
    {
      hide Logged, Queues, FairUse;
      var id := downloading[0];
      Apart(pending.Keys, waiting, downloading, buffer, windowSize, id);
      OneLeaves(pending.Keys, waiting, downloading, buffer, windowSize, 0);
      assert Without(downloading, 0) == downloading[1..];
      assert (delivered + [id]) + downloading[1..] + waiting == delivered + downloading + waiting;
      buffer := buffer - {id};
      downloading := downloading[1..];
      pending := pending - {id};
      delivered := delivered + [id];
    }

    /** A download failed: try again, or drop the vertex. A drop hands nothing over and asks for
        nothing new: what had arrived behind a dropped head stays in the buffer, and a free place
        in the window stays free, until the next event. */
    method Retry(id: Id, connected: set<Connection>)
      requires Valid() && (id in pending ==> id in downloading && id !in buffer)
      modifies this
      ensures Valid() && requests == old(requests) && delivered == old(delivered) && buffer == old(buffer) && waiting == old(waiting)
      ensures id !in old(pending) ==> Unmoved()
      ensures id in old(pending) && !Gone(old(pending), id, connected) ==>
                id in pending && pending == old(pending)[id := pending[id]] && SameRequest(old(pending)[id], pending[id]) && downloading == old(downloading)
      ensures Gone(old(pending), id, connected) ==>
                id in old(downloading) && pending == old(pending) - {id} && downloading == Without(old(downloading), Place(old(downloading), id))
      ensures old(NoneReady()) ==>
                (NoneReady() <==> !(Gone(old(pending), id, connected) && |old(downloading)| >= 2 && old(downloading)[0] == id && old(downloading)[1] in old(buffer)))
      ensures old(Busy()) ==> (Busy() <==> !(Gone(old(pending), id, connected) && old(waiting) != []))
    {
      hide Logged, Queues, Reachable;
      if id !in pending { return; }
      Apart(pending.Keys, waiting, downloading, buffer, windowSize, id);
      var details, connection := GetConnection(pending[id].(requested := false), connected, retries);
      SameReach(pending[id], connected);
      if connection.None? {
        RemovePendingTx(id);
        return;
      }
      pending := pending[id := details.(requested := true)];
      assert pending.Keys == old(pending).Keys;
    }

    method RemovePendingTx(id: Id)
      requires Valid() && id in downloading && id !in buffer
      modifies this
      ensures Valid() && pending == old(pending) - {id}
      ensures requests == old(requests) && delivered == old(delivered) && buffer == old(buffer) && waiting == old(waiting)
      ensures downloading == Without(old(downloading), Place(old(downloading), id))
    {
      hide Logged, Queues, Without, FairUse;
      var p := Place(downloading, id);
      Apart(pending.Keys, waiting, downloading, buffer, windowSize, id);
      OneLeaves(pending.Keys, waiting, downloading, buffer, windowSize, p);
      assert buffer - {id} == buffer;
      LogSizes(requests, delivered + downloading + waiting, tickets, dropped);
      DroppedRequest(requests, delivered + downloading + waiting, tickets, dropped, |delivered| + p);
      WithoutMiddle(delivered, downloading, waiting, p);
      pending := pending - {id};
      downloading := Without(downloading, p);
      tickets, dropped := Without(tickets, |delivered| + p), dropped + {tickets[|delivered| + p]};
    }
  }

  lemma {:induction false} OneMore(s: seq<Id>, k: nat)
    requires k < |s|
    ensures s[..k + 1] == s[..k] + [s[k]] && s[k..][1..] == s[k + 1..] && Elems(s[..k + 1]) == Elems(s[..k]) + {s[k]}
  {
  }

  lemma {:induction false} CountIs(downloading: seq<Id>, buffer: set<Id>, n: nat)
    requires n <= |downloading| && (forall i | 0 <= i < n :: downloading[i] in buffer) && (n < |downloading| ==> downloading[n] !in buffer)
    ensures n == ReadyCount(downloading, buffer)
  {
  }

  lemma {:induction false} LogSizes(requests: seq<Id>, ids: seq<Id>, tickets: seq<nat>, dropped: set<nat>)
    requires Logged(requests, ids, tickets, dropped)
    ensures |ids| == |tickets|
  {
  }

  lemma {:induction false} WithoutHead(front: seq<Id>, back: seq<Id>)
    requires back != []
    ensures Without(front + back, |front|) == front + back[1..]
  {
  }

  lemma {:induction false} WithoutMiddle(a: seq<Id>, b: seq<Id>, c: seq<Id>, p: nat)
    requires p < |b|
    ensures Without(a + b + c, |a| + p) == a + Without(b, p) + c
  {
  }

  lemma {:induction false} UsedUp(d: TxDetails, connected: set<Connection>)
    requires FairUse(d, 1) && d.tries != [] && |d.connections| == 1
    ensures !Reachable(d, connected)
  {
    assert d.tries[0] in multiset(d.tries);
  }

  lemma {:induction false} InQueues(pending: map<Id, TxDetails>, waiting: seq<Id>, downloading: seq<Id>, buffer: set<Id>, windowSize: nat)
    requires Queues(pending.Keys, waiting, downloading, buffer, windowSize)
    ensures pending.Keys == Elems(downloading + waiting)
  {
  }

  /** A new vertex with an open connection starts at once if there is a place in the window. */
  lemma {:induction false} StartsAtOnce(pending: map<Id, TxDetails>, downloading: seq<Id>, id: Id, connection: Connection, connected: set<Connection>, windowSize: nat)
    requires connection in connected && |downloading| < windowSize
    ensures Started([id], downloading, ReachableIds(pending[id := NewDetails(connection)], connected), windowSize) == ([], downloading + [id])
  {
    assert NewDetails(connection).connections[0] in connected;
    assert Reachable(NewDetails(connection), connected);
    assert [id][1..] == [];
  }

  lemma {:induction false} WaitsIfFull(waiting: seq<Id>, downloading: seq<Id>, reachable: set<Id>, windowSize: nat)
    requires |downloading| >= windowSize
    ensures Started(waiting, downloading, reachable, windowSize) == (waiting, downloading)
  {
  }

  /** Asks for a vertex nobody asked for, of an open connection, while nothing waits: it starts if
      there is a place in the window. */
  method Ask(d: Downloader, id: Id, connection: Connection)
    requires d.Valid() && id !in d.downloading && d.waiting == []
    modifies d
    ensures d.Valid() && d.requests == old(d.requests) + [id] && d.delivered == old(d.delivered) && d.buffer == old(d.buffer)
    ensures (d.waiting, d.downloading) == if |old(d.downloading)| < d.windowSize then ([], old(d.downloading) + [id]) else ([id], old(d.downloading))
    ensures d.pending.Keys == Elems(d.downloading) + Elems(d.waiting)
    ensures id in d.pending && (d.waiting == [] ==> SameRequest(NewDetails(connection), d.pending[id]))
    ensures forall i | i in old(d.downloading) :: i in old(d.pending) && i in d.pending && d.pending[i] == old(d.pending)[i]
  {
    hide Logged, Queues, FairUse, ReachableIds, Started;
    if |d.downloading| < d.windowSize {
      StartsAtOnce(d.pending, d.downloading, id, connection, {connection}, d.windowSize);
    } else {
      WaitsIfFull([id], d.downloading, ReachableIds(d.pending[id := NewDetails(connection)], {connection}), d.windowSize);
    }
    assert d.waiting + [id] == [id];
    InQueues(d.pending, d.waiting, d.downloading, d.buffer, d.windowSize);
    d.GetTx(id, connection, false, {connection});
    InQueues(d.pending, d.waiting, d.downloading, d.buffer, d.windowSize);
    assert (d.downloading + d.waiting)[|d.downloading + d.waiting| - 1] == id;
  }

  /** Three vertices asked for with a window of two and one try per connection. */
  method AskThree() returns (d: Downloader)
    ensures fresh(d) && d.Valid() && d.windowSize == 2 && d.retries == 1 && d.requests == [1, 2, 3] && d.delivered == []
    ensures d.downloading == [1, 2] && d.waiting == [3] && d.buffer == {} && 1 in d.pending && 2 in d.pending
    ensures d.pending[1].tries != [] && |d.pending[1].connections| == 1
  {
    hide Logged, Queues, FairUse;
    d := new Downloader(2, 1);
    Ask(d, 1, 10);
    assert d.downloading == [1] && d.pending[1].tries != [] && |d.pending[1].connections| == 1;
    Ask(d, 2, 10);
    assert d.downloading == [1, 2] && d.pending[1].tries != [] && |d.pending[1].connections| == 1;
    Ask(d, 3, 10);
  }

  /** The second arrives and the first is dropped: the second could be handed over and the third
      asked for, but neither happens. */
  method DropStrandsWhatFollows() returns (d: Downloader)
    ensures fresh(d) && d.Valid() && d.requests == [1, 2, 3] && d.delivered == []
    ensures d.downloading == [2] && d.buffer == {2} && d.waiting == [3] && !d.NoneReady() && !d.Busy()
  {
    hide Logged, Queues, FairUse, ReachableIds, Reachable, Started;
    d := AskThree();
    d.OnNewTx(2, {10});
    InQueues(d.pending, d.waiting, d.downloading, d.buffer, 2);
    assert d.downloading == [1, 2] && d.waiting == [3] && d.buffer == {2};
    assert d.pending[1].tries != [] && |d.pending[1].connections| == 1;
    UsedUp(d.pending[1], {10});
    d.Retry(1, {10});
  }
}
