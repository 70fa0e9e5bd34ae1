/** The browser's response interceptor: on a 401 one request refreshes the access token, the others wait for it. */
module SingleFlight {
  import opened Prelude

  type Id = nat

  /** A request sent again, with the token it was given. */
  datatype Replay = Replay(id: Id, token: string)

  /** `owner` is the request whose refresh is in flight; `waiting` is the queue; `retried` are the requests marked
      as retried; `gaveUp` are the owners whose refresh failed; `rejected` are the failures passed on at once. */
  datatype Client = Client(owner: Option<Id>, waiting: seq<Id>, retried: set<Id>, replays: seq<Replay>,
                           gaveUp: seq<Id>, rejected: seq<Id>, token: Option<string>)

  const START := Client(None, [], {}, [], [], [], None)

  datatype Event =
    | Failed(id: Id, unauthorized: bool, authCall: bool)   // authCall: to the refresh, login or logout endpoint
    | Refreshed(token: string)
    | RefreshFailed

  // ---------------------------------------------------------------- what each callback does

  function OnFailed(c: Client, id: Id, unauthorized: bool, authCall: bool): Client {
    if !unauthorized || id in c.retried || authCall then c.(rejected := c.rejected + [id])
    else
      var marked := c.(retried := c.retried + {id});
      if c.owner.Some? then marked.(waiting := c.waiting + [id]) else marked.(owner := Some(id))
  }

  function Replays(ids: seq<Id>, token: string): seq<Replay> {
    seq(|ids|, i requires 0 <= i < |ids| => Replay(ids[i], token))
  }

  /** The queue first, in order, then the owner. */
  function OnRefreshed(c: Client, token: string): Client
    requires c.owner.Some?
  {
    c.(owner := None, waiting := [], token := Some(token), replays := c.replays + Replays(c.waiting + [c.owner.value], token))
  }

  /** The session is cleared and the owner's failure passed on; the queue is not touched. */
  function OnRefreshFailed(c: Client): Client
    requires c.owner.Some?
  {
    c.(owner := None, token := None, gaveUp := c.gaveUp + [c.owner.value])
  }

  class Interceptor {
    var isRefreshing: bool
    var refreshQueue: seq<Id>
    var token: Option<string>
    // the continuation that awaits the refresh, and what was sent and settled
    var original: Id
    var retried: set<Id>
    var replays: seq<Replay>
    var gaveUp: seq<Id>
    var rejected: seq<Id>

    ghost function View(): Client
      reads this
    {
      Client(if isRefreshing then Some(original) else None, refreshQueue, retried, replays, gaveUp, rejected, token)
    }

    constructor ()
      ensures View() == START
    {
      isRefreshing, refreshQueue, token, original := false, [], None, 0;
      retried, replays, gaveUp, rejected := {}, [], [], [];
    }

    method OnError(id: Id, unauthorized: bool, authCall: bool)
      modifies this
      ensures View() == OnFailed(old(View()), id, unauthorized, authCall)
    {
      if !unauthorized || id in retried || authCall {
        rejected := rejected + [id];
        return;
      }
      retried := retried + {id};
      if isRefreshing {
        refreshQueue := refreshQueue + [id];
        return;
      }
      isRefreshing := true;
      original := id;
    }

    method DrainQueue(newToken: string)
      modifies this`refreshQueue, this`replays
      ensures refreshQueue == [] && replays == old(replays) + Replays(old(refreshQueue), newToken)
    {
      var i := 0;
      while i < |refreshQueue|
        invariant 0 <= i <= |refreshQueue| && refreshQueue == old(refreshQueue)
        invariant replays == old(replays) + Replays(refreshQueue[..i], newToken)
      {
        replays := replays + [Replay(refreshQueue[i], newToken)];
        assert Replays(refreshQueue[..i + 1], newToken) == Replays(refreshQueue[..i], newToken) + [Replay(refreshQueue[i], newToken)];
        i := i + 1;
      }
      assert refreshQueue[..i] == refreshQueue;
      refreshQueue := [];
    }

    method OnRefreshSucceeded(newToken: string)
      requires isRefreshing
      modifies this
      ensures View() == OnRefreshed(old(View()), newToken)
    {
      token := Some(newToken);
      DrainQueue(newToken);
      replays := replays + [Replay(original, newToken)];
      isRefreshing := false;
      assert Replays(old(refreshQueue) + [original], newToken) == Replays(old(refreshQueue), newToken) + [Replay(original, newToken)];
    }

    method OnRefreshError()
      requires isRefreshing
      modifies this
      ensures View() == OnRefreshFailed(old(View()))
    {
      token := None;
      gaveUp := gaveUp + [original];
      isRefreshing := false;
    }
  }

  // ---------------------------------------------------------------- runs

  predicate Enabled(c: Client, e: Event) {
    e.Failed? || c.owner.Some?
  }

  function Step(c: Client, e: Event): Client
    requires Enabled(c, e)
  {
    match e
    case Failed(id, unauthorized, authCall) => OnFailed(c, id, unauthorized, authCall)
    case Refreshed(token) => OnRefreshed(c, token)
    case RefreshFailed => OnRefreshFailed(c)
  }

  predicate EnabledRun(c: Client, events: seq<Event>)
    decreases |events|
  {
    events != [] ==> Enabled(c, events[0]) && EnabledRun(Step(c, events[0]), events[1..])
  }

  function Run(c: Client, events: seq<Event>): Client
    requires EnabledRun(c, events)
    decreases |events|
  {
    if events == [] then c else Run(Step(c, events[0]), events[1..])
  }

  function Ids(replays: seq<Replay>): seq<Id> {
    seq(|replays|, i requires 0 <= i < |replays| => replays[i].id)
  }

  /** Where each retried request is. */
  function Places(c: Client): multiset<Id> {
    (if c.owner.Some? then multiset{c.owner.value} else multiset{})
    + multiset(c.waiting) + multiset(Ids(c.replays)) + multiset(c.gaveUp)
  }

  ghost predicate Inv(c: Client) {
    Places(c) == multiset(c.retried)
  }

  lemma IdsAppend(a: seq<Replay>, b: seq<Replay>)
    ensures Ids(a + b) == Ids(a) + Ids(b)
  {
  }

  lemma IdsOfReplays(ids: seq<Id>, token: string)
    ensures Ids(Replays(ids, token)) == ids
  {
  }

  lemma OneMore(ids: seq<Id>, id: Id)
    ensures multiset(ids + [id]) == multiset(ids) + multiset{id}
  {
  }

  lemma OneMoreMarked(ids: set<Id>, id: Id)
    requires id !in ids
    ensures multiset(ids + {id}) == multiset(ids) + multiset{id}
  {
  }

  /** A marked request owns the refresh or waits. */
  lemma FailureKeepsInv(c: Client, id: Id, unauthorized: bool, authCall: bool)
    requires Inv(c)
    ensures Inv(OnFailed(c, id, unauthorized, authCall))
  {
    var d := OnFailed(c, id, unauthorized, authCall);
    if d.retried != c.retried {
      OneMoreMarked(c.retried, id);
      OneMore(c.waiting, id);
      var waiting, replays, gaveUp := multiset(c.waiting), multiset(Ids(c.replays)), multiset(c.gaveUp);
      if c.owner.Some? {
        Shuffle(multiset{c.owner.value}, waiting, replays, gaveUp, multiset{id});
      } else {
        Shuffle(multiset{}, waiting, replays, gaveUp, multiset{id});
        assert multiset{} + multiset{id} == multiset{id};
      }
    }
  }

  lemma Shuffle(a: multiset<Id>, b: multiset<Id>, c: multiset<Id>, d: multiset<Id>, e: multiset<Id>)
    ensures a + (b + e) + c + d == a + b + c + d + e
    ensures (a + e) + b + c + d == a + b + c + d + e
  {
  }

  lemma SuccessKeepsInv(c: Client, token: string)
    requires Inv(c) && c.owner.Some?
    ensures Inv(OnRefreshed(c, token))
  {
    hide Ids, Replays;
    var owner, again := c.owner.value, c.waiting + [c.owner.value];
    IdsAppend(c.replays, Replays(again, token));
    IdsOfReplays(again, token);
    OneMore(c.waiting, owner);
    var o, w, r, g := multiset{owner}, multiset(c.waiting), multiset(Ids(c.replays)), multiset(c.gaveUp);
    assert multiset(Ids(c.replays) + again) == r + (w + o);
    assert o + w + r + g == multiset{} + multiset{} + (r + (w + o)) + g;
  }

  lemma RefreshFailureKeepsInv(c: Client)
    requires Inv(c) && c.owner.Some?
    ensures Inv(OnRefreshFailed(c))
  {
    hide Ids;
    OneMore(c.gaveUp, c.owner.value);
    var o, w, r, g := multiset{c.owner.value}, multiset(c.waiting), multiset(Ids(c.replays)), multiset(c.gaveUp);
    assert o + w + r + g == multiset{} + w + r + (g + o);
  }

  lemma StepKeepsInv(c: Client, e: Event)
    requires Inv(c) && Enabled(c, e)
    ensures Inv(Step(c, e))
  {
    hide Inv, OnFailed, OnRefreshed, OnRefreshFailed;
    match e
    case Failed(id, unauthorized, authCall) => FailureKeepsInv(c, id, unauthorized, authCall);
    case Refreshed(token) => SuccessKeepsInv(c, token);
    case RefreshFailed => RefreshFailureKeepsInv(c);
  }

  lemma {:induction false} RunKeepsInv(c: Client, events: seq<Event>)
    requires Inv(c) && EnabledRun(c, events)
    ensures Inv(Run(c, events))
    decreases |events|
  {
    if events != [] {
      StepKeepsInv(c, events[0]);
      RunKeepsInv(Step(c, events[0]), events[1..]);
    }
  }

  /** Over every ordering of failures and refresh outcomes, each request that was marked is in exactly one place:
      it owns the refresh in flight, or waits, or was replayed, or gave up with its refresh; and no other request
      is in any of them. So none is replayed twice. */
  lemma EveryRetriedRequestIsSomewhereOnce(events: seq<Event>, id: Id)
    requires EnabledRun(START, events)
    ensures var c := Run(START, events);
      (if c.owner == Some(id) then 1 else 0) + Count(c.waiting, id) + Count(Ids(c.replays), id) + Count(c.gaveUp, id)
        == if id in c.retried then 1 else 0
  {
    RunKeepsInv(START, events);
    var c := Run(START, events);
    assert Places(c)[id] == multiset(c.retried)[id];
  }

  /** How many refreshes a run started, and how many ended. */
  function Started(c: Client, events: seq<Event>): nat
    requires EnabledRun(c, events)
    decreases |events|
  {
    if events == [] then 0
    else
      var d := Step(c, events[0]);
      (if events[0].Failed? && d.owner != c.owner then 1 else 0) + Started(d, events[1..])
  }

  function Ended(events: seq<Event>): nat
    decreases |events|
  {
    if events == [] then 0 else (if events[0].Failed? then 0 else 1) + Ended(events[1..])
  }

  /** At most one refresh is in flight: a refresh starts only when the one before it has ended. */
  lemma {:induction false} OneRefreshInFlight(c: Client, events: seq<Event>)
    requires EnabledRun(c, events)
    ensures (if c.owner.Some? then 1 else 0) + Started(c, events) == Ended(events) + if Run(c, events).owner.Some? then 1 else 0
    decreases |events|
  {
    if events != [] {
      OneRefreshInFlight(Step(c, events[0]), events[1..]);
    }
  }

  function FirstToken(events: seq<Event>): Option<string>
    decreases |events|
  {
    if events == [] then None
    else if events[0].Refreshed? then Some(events[0].token)
    else FirstToken(events[1..])
  }

  lemma {:induction false} ReplaysStay(c: Client, events: seq<Event>)
    requires EnabledRun(c, events)
    ensures c.replays <= Run(c, events).replays
    decreases |events|
  {
    if events != [] {
      ReplaysStay(Step(c, events[0]), events[1..]);
    }
  }

  lemma {:induction false} WaitsOrIsReplayed(c: Client, events: seq<Event>, id: Id)
    requires EnabledRun(c, events) && id in c.waiting
    ensures var d := Run(c, events);
      match FirstToken(events)
      case Some(token) => Replay(id, token) in d.replays
      case None => id in d.waiting
    decreases |events|
  {
    if events == [] {
    } else if events[0].Refreshed? {
      var e := Step(c, events[0]);
      var i :| 0 <= i < |c.waiting| && c.waiting[i] == id;
      assert e.replays[|c.replays| + i] == Replay(id, events[0].token);
      ReplaysStay(e, events[1..]);
      assert Run(e, events[1..]).replays[|c.replays| + i] == Replay(id, events[0].token);
    } else {
      WaitsOrIsReplayed(Step(c, events[0]), events[1..], id);
    }
  }

  lemma ReplayedIsInIds(replays: seq<Replay>, r: Replay)
    requires r in replays
    ensures r.id in Ids(replays)
  {
    var i :| 0 <= i < |replays| && replays[i] == r;
    assert Ids(replays)[i] == r.id;
  }

  /** A waiting request is replayed with the token of the first refresh that succeeds from then on; if none does,
      it goes on waiting, also when refreshes fail: nothing tells it so. */
  lemma WaitingUntilARefreshSucceeds(c: Client, events: seq<Event>, id: Id)
    requires Inv(c) && EnabledRun(c, events) && id in c.waiting
    ensures var d := Run(c, events);
      match FirstToken(events)
      case Some(token) => id !in d.waiting && Replay(id, token) in d.replays && Count(Ids(d.replays), id) == 1
      case None => id in d.waiting && id !in Ids(d.replays)
  {
    hide Inv;
    var d := Run(c, events);
    RunKeepsInv(c, events);
    PlacedOnce(d, id);
    WaitsOrIsReplayed(c, events, id);
    if FirstToken(events).Some? {
      ReplayedIsInIds(d.replays, Replay(id, FirstToken(events).value));
    }
  }

  lemma PlacedOnce(c: Client, id: Id)
    requires Inv(c)
    ensures (if c.owner == Some(id) then 1 else 0) + Count(c.waiting, id) + Count(Ids(c.replays), id) + Count(c.gaveUp, id) <= 1
  {
    assert Places(c)[id] == multiset(c.retried)[id];
  }

  /** A successful refresh leaves nobody waiting, and what it replays carries its token: the queue in order, then
      the owner. */
  lemma SuccessEmptiesTheQueue(c: Client, token: string)
    requires Inv(c) && c.owner.Some?
    ensures var d := OnRefreshed(c, token);
      && d.waiting == [] && d.owner == None && d.token == Some(token)
      && Ids(d.replays) == Ids(c.replays) + c.waiting + [c.owner.value]
      && (forall i :: |c.replays| <= i < |d.replays| ==> d.replays[i].token == token)
  {
    IdsAppend(c.replays, Replays(c.waiting + [c.owner.value], token));
    IdsOfReplays(c.waiting + [c.owner.value], token);
  }

  /** A replayed request that fails again is not retried. */
  lemma ReplayedFailureIsFinal(c: Client, id: Id, unauthorized: bool, authCall: bool)
    requires Inv(c) && id in Ids(c.replays)
    ensures OnFailed(c, id, unauthorized, authCall) == c.(rejected := c.rejected + [id])
  {
    assert Places(c)[id] == multiset(c.retried)[id];
  }

  // ---------------------------------------------------------------- what is passed on, and the token

  lemma {:induction false} EnabledPrefix(c: Client, events: seq<Event>, e: Event)
    requires EnabledRun(c, events + [e])
    ensures EnabledRun(c, events) && Enabled(Run(c, events), e)
    ensures Run(c, events + [e]) == Step(Run(c, events), e)
    decreases |events|
  {
    if events == [] {
      assert [] + [e] == [e];
      assert [e][1..] == [];
    } else {
      assert (events + [e])[1..] == events[1..] + [e];
      EnabledPrefix(Step(c, events[0]), events[1..], e);
    }
  }

  /** The request failed with a 401 before, outside of the auth endpoints: it had its one retry. */
  predicate HadItsRetry(events: seq<Event>, id: Id) {
    Failed(id, true, false) in events
  }

  /** The failures that a run passes on at once, in order: those that are no 401, those of the auth endpoints, and those
      of requests that had their retry. */
  function PassedOn(events: seq<Event>): seq<Id> {
    if events == [] then []
    else
      var front, last := events[..|events| - 1], events[|events| - 1];
      PassedOn(front) +
        if last.Failed? && (!last.unauthorized || last.authCall || HadItsRetry(front, last.id)) then [last.id] else []
  }

  /** The token that the last refresh left: its own if it succeeded, none if it failed. */
  function LastToken(events: seq<Event>): Option<string> {
    if events == [] then None
    else
      match events[|events| - 1]
      case Failed(_, _, _) => LastToken(events[..|events| - 1])
      case Refreshed(token) => Some(token)
      case RefreshFailed => None
  }

  /** Over every ordering, a failure is passed on exactly when it is no 401, comes from an auth endpoint, or is the
      second one of its request; and the token at hand is the one of the last refresh. */
  lemma {:induction false} PassedOnExactly(events: seq<Event>)
    requires EnabledRun(START, events)
    ensures var c := Run(START, events);
      && c.rejected == PassedOn(events)
      && (forall id :: id in c.retried <==> HadItsRetry(events, id))
      && c.token == LastToken(events)
  {
    if events != [] {
      var front, last := events[..|events| - 1], events[|events| - 1];
      assert events == front + [last];
      EnabledPrefix(START, front, last);
      PassedOnExactly(front);
      assert forall id :: HadItsRetry(events, id) <==> HadItsRetry(front, id) || last == Failed(id, true, false);
    }
  }

  /** A first failure with a 401 starts the refresh if none is in flight, and else waits behind the others. */
  lemma FailureStartsOrWaits(c: Client, id: Id)
    requires id !in c.retried
    ensures var d := OnFailed(c, id, true, false);
      if c.owner.Some? then d.waiting == c.waiting + [id] && d.owner == c.owner
      else d.waiting == c.waiting && d.owner == Some(id)
  {
  }

  /** When the request failed first. */
  function FirstFailure(events: seq<Event>, id: Id): (n: nat)
    requires HadItsRetry(events, id)
    ensures n < |events|
  {
    var front := events[..|events| - 1];
    if HadItsRetry(front, id) then FirstFailure(front, id) else |front|
  }

  /** Over every ordering, the queue is in the order in which its requests failed, and so they are replayed. */
  lemma {:induction false} QueueIsInOrder(events: seq<Event>, i: nat, j: nat)
    requires EnabledRun(START, events) && i < j < |Run(START, events).waiting|
    ensures var waiting := Run(START, events).waiting;
      && HadItsRetry(events, waiting[i]) && HadItsRetry(events, waiting[j])
      && FirstFailure(events, waiting[i]) < FirstFailure(events, waiting[j])
    decreases |events|
  {
    hide Inv, PassedOn, LastToken;
    if events != [] {
      var front, last := events[..|events| - 1], events[|events| - 1];
      assert events == front + [last];
      EnabledPrefix(START, front, last);
      var c, d := Run(START, front), Run(START, events);
      PassedOnExactly(front);
      WaitingIsMarked(front, i);
      if j < |c.waiting| {
        QueueIsInOrder(front, i, j);
      }
    }
  }

  lemma WaitingIsMarked(events: seq<Event>, i: nat)
    requires EnabledRun(START, events)
    ensures i < |Run(START, events).waiting| ==> Run(START, events).waiting[i] in Run(START, events).retried
  {
    RunKeepsInv(START, events);
    var c := Run(START, events);
    assert i < |c.waiting| ==> c.waiting[i] in Places(c);
  }
}
