/** What each message does to the hub of a run, client by client: who is a client, what
    is in the queues, who subscribes to what. */
module HubEffects {
  import opened HubSpec

  /** A queue with a message offered to it: appended if there is room. */
  function Offered(q: Chan, m: Message): Chan {
    if |q.msgs| < 256 then Chan(q.msgs + [m], q.closed) else q
  }

  function Closed(q: Chan): Chan {
    Chan(q.msgs, true)
  }

  ghost predicate SameSubscriptions(s: HubVal, r: HubVal, d: Client) {
    forall x :: d in SubscribersOf(r, x) <==> d in SubscribersOf(s, x)
  }

  ghost predicate NoSubscriptions(r: HubVal, d: Client) {
    forall x :: d !in SubscribersOf(r, x)
  }

  ghost predicate SameQueue(s: HubVal, r: HubVal, d: Client) {
    (d in r.queues <==> d in s.queues) && (d in s.queues ==> r.queues[d] == s.queues[d])
  }

  ghost predicate Untouched(s: HubVal, r: HubVal, d: Client) {
    (d in r.clients <==> d in s.clients) && SameQueue(s, r, d) && SameSubscriptions(s, r, d)
  }

  /** d is no client any more, and its queue is closed if it was one. */
  ghost predicate Left(s: HubVal, r: HubVal, d: Client) {
    && d !in r.clients && NoSubscriptions(r, d)
    && (if d in s.clients then d in s.queues && d in r.queues && r.queues[d] == Closed(s.queues[d]) else SameQueue(s, r, d))
  }

  /** d stays a client, with m offered to its queue. */
  ghost predicate Told(s: HubVal, r: HubVal, d: Client, m: Message) {
    d in s.clients && d in r.clients && d in s.queues && d in r.queues && r.queues[d] == Offered(s.queues[d], m)
  }

  // -------------------------------------------------------- the messages

  /** A newcomer is admitted within both limits; otherwise it is told which one it hit,
      and its queue is closed. Nobody else notices. */
  ghost predicate Registers(s: HubVal, r: HubVal, c: Client, d: Client) {
    if d != c then Untouched(s, r, d)
    else
      && c !in s.queues && c in r.queues && NoSubscriptions(r, c)
      && if |s.clients| >= 1000 then c !in r.clients && r.queues[c] == Chan([Error("max connections reached")], true)
         else if |At(s.clients, c.ip)| >= 10 then c !in r.clients && r.queues[c] == Chan([Error("max connections per IP reached")], true)
         else c in r.clients && r.queues[c] == Chan([], false)
  }

  /** Who unregisters leaves; nobody else notices. */
  ghost predicate Unregisters(s: HubVal, r: HubVal, c: Client, d: Client) {
    if d == c then Left(s, r, d) else Untouched(s, r, d)
  }

  /** A client with room for a subscription gets it and is told; one without is told so;
      one that has it already notices nothing, nor does anybody else. */
  ghost predicate Subscribes(s: HubVal, r: HubVal, c: Client, sub: Subscription, d: Client) {
    if d != c || c !in s.clients then Untouched(s, r, d)
    else if c in s.clientSubs && |s.clientSubs[c]| >= 20 then
      Told(s, r, c, Error("max subscriptions reached")) && SameSubscriptions(s, r, c)
    else if c in SubscribersOf(s, sub) then Untouched(s, r, c)
    else Told(s, r, c, Subscribed(sub)) && forall x :: c in SubscribersOf(r, x) <==> c in SubscribersOf(s, x) || x == sub
  }

  /** A client gives up the subscription, if it had it, and is told in any case. */
  ghost predicate Unsubscribes(s: HubVal, r: HubVal, c: Client, sub: Subscription, d: Client) {
    if d != c || c !in s.clients then Untouched(s, r, d)
    else Told(s, r, c, Unsubscribed(sub)) && forall x :: c in SubscribersOf(r, x) <==> c in SubscribersOf(s, x) && x != sub
  }

  /** A direct message reaches a client with room, and nobody else. */
  ghost predicate Sends(s: HubVal, r: HubVal, c: Client, m: Message, d: Client) {
    if d != c || c !in s.clients then Untouched(s, r, d) else Told(s, r, c, m) && SameSubscriptions(s, r, c)
  }

  /** A broadcast reaches every subscriber with room; the others leave. */
  ghost predicate Broadcasts(s: HubVal, r: HubVal, sub: Subscription, m: Message, d: Client) {
    if d !in SubscribersOf(s, sub) then Untouched(s, r, d)
    else if d in s.queues && |s.queues[d].msgs| < 256 then Told(s, r, d, m) && SameSubscriptions(s, r, d)
    else Left(s, r, d)
  }

  /** The reader of a client takes the oldest message off its queue. */
  ghost predicate Drains(s: HubVal, r: HubVal, c: Client, d: Client) {
    && (d in r.clients <==> d in s.clients) && SameSubscriptions(s, r, d)
    && if d == c && c in s.queues && s.queues[c].msgs != []
       then c in r.queues && r.queues[c] == Chan(s.queues[c].msgs[1..], s.queues[c].closed) else SameQueue(s, r, d)
  }

  /** What a message means for client d. */
  ghost predicate Effect(s: HubVal, ev: Event, r: HubVal, d: Client) {
    match ev
    case Register(c) => Registers(s, r, c, d)
    case Unregister(c) => Unregisters(s, r, c, d)
    case Subscribe(c, sub) => Subscribes(s, r, c, sub, d)
    case Unsubscribe(c, sub) => Unsubscribes(s, r, c, sub, d)
    case DirectSend(c, m) => Sends(s, r, c, m, d)
    case Broadcast(sub, m) => Broadcasts(s, r, sub, m, d)
    case Drain(c) => Drains(s, r, c, d)
    case Shutdown => Left(s, r, d)
  }

  // ------------------------------------------------------ from sound states

  lemma RemovalEffect(s: HubVal, gone: set<Client>, d: Client)
    requires Inv(s) && gone <= s.clients
    ensures if d in gone then Left(s, RemoveAll(s, gone), d) else Untouched(s, RemoveAll(s, gone), d)
  {
    forall x ensures d in SubscribersOf(RemoveAll(s, gone), x) <==> d in SubscribersOf(s, x) && d !in gone {}
  }

  lemma StrangerHasNothing(s: HubVal, d: Client)
    requires Inv(s) && d !in s.clients
    ensures NoSubscriptions(s, d)
  {
    forall x ensures d !in SubscribersOf(s, x) { assert SubscribersOf(s, x) == Holders(s, x); }
  }

  lemma SendEffect(s: HubVal, c: Client, m: Message, d: Client)
    requires Inv(s) && c in s.clients
    ensures if d == c then Told(s, SendTo(s, c, m), d, m) && SameSubscriptions(s, SendTo(s, c, m), d) else Untouched(s, SendTo(s, c, m), d)
  {
  }

  lemma RegisterKeepsSubs(s: HubVal, c: Client, x: Subscription)
    requires c !in s.queues
    ensures SubscribersOf(RegisterStep(s, c), x) == SubscribersOf(s, x)
  {
  }

  lemma RegisterOthers(s: HubVal, c: Client, d: Client)
    requires c !in s.queues && d != c
    ensures Untouched(s, RegisterStep(s, c), d)
  {
    forall x ensures SubscribersOf(RegisterStep(s, c), x) == SubscribersOf(s, x) { RegisterKeepsSubs(s, c, x); }
  }

  lemma RegisterNewcomer(s: HubVal, c: Client)
    requires c !in s.queues && c !in s.clients && NoSubscriptions(s, c) && Count(s.ipCount, c.ip) == |At(s.clients, c.ip)|
    ensures Registers(s, RegisterStep(s, c), c, c)
  {
    forall x ensures c !in SubscribersOf(RegisterStep(s, c), x) { RegisterKeepsSubs(s, c, x); }
    RefusalSays(s, c, "max connections reached");
    RefusalSays(s, c, "max connections per IP reached");
  }

  lemma RegisterEffect(s: HubVal, c: Client, d: Client)
    requires Inv(s) && c !in s.queues
    ensures Registers(s, RegisterStep(s, c), c, d)
  {
    if d == c {
      assert c !in s.clients;
      CountsAt(s.clients, c.ip);
      StrangerHasNothing(s, c);
      RegisterNewcomer(s, c);
    } else {
      RegisterOthers(s, c, d);
    }
  }

  lemma UnregisterEffect(s: HubVal, c: Client, d: Client)
    requires Inv(s)
    ensures Unregisters(s, if c in s.clients then RemoveAll(s, {c}) else s, c, d)
  {
    if c in s.clients {
      RemovalEffect(s, {c}, d);
    } else {
      StrangerHasNothing(s, c);
    }
  }

  lemma LinkEffect(s: HubVal, c: Client, sub: Subscription, d: Client)
    requires c in s.clientSubs
    ensures Link(s, c, sub).clients == s.clients && Link(s, c, sub).queues == s.queues
    ensures forall x :: d in SubscribersOf(Link(s, c, sub), x) <==> d in SubscribersOf(s, x) || (d == c && x == sub)
  {
  }

  lemma UnlinkEffect(s: HubVal, c: Client, sub: Subscription, d: Client)
    requires c in s.clientSubs
    ensures Unlink(s, c, sub).clients == s.clients && Unlink(s, c, sub).queues == s.queues
    ensures forall x :: d in SubscribersOf(Unlink(s, c, sub), x) <==> d in SubscribersOf(s, x) && !(d == c && x == sub)
  {
  }

  lemma SubscribeEffect(s: HubVal, c: Client, sub: Subscription, d: Client)
    requires Inv(s)
    ensures Subscribes(s, SubscribeStep(s, c, sub), c, sub, d)
  {
    if c in s.clients {
      assert SubscribersOf(s, sub) == Holders(s, sub);
      if |s.clientSubs[c]| >= MAX_SUBS_PER_CLIENT {
        SendEffect(s, c, Error("max subscriptions reached"), d);
      } else if sub !in s.clientSubs[c] {
        LinkEffect(s, c, sub, d);
        LinkInv(s, c, sub);
        SendEffect(Link(s, c, sub), c, Subscribed(sub), d);
      }
    }
  }

  lemma UnsubscribeEffect(s: HubVal, c: Client, sub: Subscription, d: Client)
    requires Inv(s)
    ensures Unsubscribes(s, UnsubscribeStep(s, c, sub), c, sub, d)
  {
    if c in s.clients {
      UnlinkEffect(s, c, sub, d);
      UnlinkInv(s, c, sub);
      SendEffect(Unlink(s, c, sub), c, Unsubscribed(sub), d);
    }
  }

  lemma SendAllEffect(s: HubVal, sub: Subscription, m: Message, d: Client)
    requires Inv(s) && AllReachable(s, sub)
    ensures var r := SendAll(s, sub, m);
      && r.clients == s.clients && SameSubscriptions(s, r, d)
      && (d !in SubscribersOf(s, sub) ==> SameQueue(s, r, d))
      && (d in SubscribersOf(s, sub) ==> d in s.clients && d in s.queues && d in r.queues && r.queues[d] == Offered(s.queues[d], m))
  {
    ReachableSubscribers(s, sub);
  }

  lemma BroadcastEffect(s: HubVal, sub: Subscription, m: Message, d: Client)
    requires Inv(s) && AllReachable(s, sub)
    ensures Broadcasts(s, BroadcastTo(s, sub, m), sub, m, d)
  {
    var sent := SendAll(s, sub, m);
    ReachableSubscribers(s, sub);
    SendAllInv(s, sub, m);
    SendAllEffect(s, sub, m, d);
    RemovalEffect(sent, FullOnes(s, sub), d);
  }

  lemma ShutdownEffect(s: HubVal, d: Client)
    requires Inv(s)
    ensures Left(s, RemoveAll(s, s.clients), d)
  {
    RemovalEffect(s, s.clients, d);
    if d !in s.clients {
      StrangerHasNothing(s, d);
    }
  }

  lemma DirectSendEffect(s: HubVal, c: Client, m: Message, d: Client)
    requires Inv(s) && Reachable(s, c)
    ensures Sends(s, if c in s.clients then SendTo(s, c, m) else s, c, m, d)
  {
    if c in s.clients {
      SendEffect(s, c, m, d);
    }
  }

  lemma DrainEffect(s: HubVal, c: Client, d: Client)
    ensures Drains(s, DrainStep(s, c), c, d)
  {
  }

  lemma StepEffect(s: HubVal, ev: Event, d: Client)
    requires Inv(s) && Legal(s, ev)
    ensures Effect(s, ev, Step(s, ev), d)
  {
    match ev
    case Register(c) => RegisterEffect(s, c, d);
    case Unregister(c) => UnregisterEffect(s, c, d);
    case Subscribe(c, sub) => SubscribeEffect(s, c, sub, d);
    case Unsubscribe(c, sub) => UnsubscribeEffect(s, c, sub, d);
    case DirectSend(c, m) => DirectSendEffect(s, c, m, d);
    case Broadcast(sub, m) => BroadcastInv(s, sub, m); BroadcastEffect(s, sub, m, d);
    case Drain(c) => DrainEffect(s, c, d);
    case Shutdown => ShutdownEffect(s, d);
  }

  /** After any messages in any order, one more message has exactly its effect on every
      client. */
  lemma EffectInEveryRun(evs: seq<Event>, ev: Event, d: Client)
    requires RegisteredOnce(evs + [ev])
    ensures RegisteredOnce(evs) && Effect(After(evs), ev, After(evs + [ev]), d)
  {
    AfterMoves(evs, ev);
    StepEffect(After(evs), ev, d);
  }
}
