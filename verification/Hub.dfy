/** The hub object: four maps and the clients' queues, changed in place by one
    method per message. Maps are walked in whatever order `:|` picks. */
module Hubs {
  import opened HubSpec

  class Hub {
    var clients: set<Client>
    var subs: map<Subscription, set<Client>>
    var clientSubs: map<Client, set<Subscription>>
    var ipCount: map<string, int>
    ghost var seen: set<Client>

    ghost function View(): HubVal
      reads this, seen
    {
      HubVal(clients, subs, clientSubs, ipCount, map c | c in seen :: c.View())
    }

    constructor ()
      ensures View() == NEW_HUB && Inv(View())
    {
      clients, subs, clientSubs, ipCount, seen := {}, map[], map[], map[], {};
    }

    // ------------------------------------------------------- the queues

    /** Sends without blocking; a full queue drops the message. */
    method SendJSON(c: Client, m: Message)
      requires c in seen && !c.closed
      modifies c
      ensures View() == SendTo(old(View()), c, m)
    {
      ghost var s := View();
      if |c.queue| < SEND_CAP {
        c.queue := c.queue + [m];
      }
      assert View().queues == SendTo(s, c, m).queues;
    }

    // ------------------------------------------------- leaving the maps

    /** The same subscriptions with these clients taken out of each. */
    static ghost predicate Without(now: map<Subscription, set<Client>>, was: map<Subscription, set<Client>>, gone: set<Client>) {
      now.Keys == was.Keys && forall sub :: sub in was ==> now[sub] == was[sub] - gone
    }

    /** Whoever is among the subscribers of something has it on file. */
    ghost predicate OnFile()
      reads this
    {
      forall sub, c :: sub in subs && c in subs[sub] ==> c in clientSubs && sub in clientSubs[c]
    }

    /** Takes c out of every subscription it has. */
    method Forget(c: Client)
      requires OnFile() && c in clientSubs
      modifies this`subs
      ensures Without(subs, old(subs), {c})
    {
      var todo := clientSubs[c];
      while todo != {}
        invariant todo <= clientSubs[c]
        invariant subs == map sub | sub in old(subs) :: if sub in clientSubs[c] && sub !in todo then old(subs)[sub] - {c} else old(subs)[sub]
      {
        var sub :| sub in todo;
        todo := todo - {sub};
        if sub in subs {
          subs := subs[sub := subs[sub] - {c}];
        }
      }
      forall sub | sub in old(subs) ensures subs[sub] == old(subs)[sub] - {c} {
        assert sub in clientSubs[c] || c !in old(subs)[sub];
      }
    }

    method Uncount(c: Client)
      requires ipCount == IpCounts(clients) && c in clients
      modifies `ipCount
      ensures ipCount == IpCounts(clients - {c})
    {
      DropCounts(clients, c);
      var n := Count(ipCount, c.ip) - 1;
      ipCount := if n <= 0 then ipCount - {c.ip} else ipCount[c.ip := n];
    }

    /** Cleans up after a client and closes its queue; does nothing if it is not one. */
    method RemoveClient(c: Client)
      requires OnFile() && ipCount == IpCounts(clients)
      requires c in clients ==> c in clientSubs && c in seen && !c.closed
      modifies `clients, `subs, `clientSubs, `ipCount, c
      ensures OnFile() && ipCount == IpCounts(clients)
      ensures c !in old(clients) ==> unchanged(this) && unchanged(c)
      ensures c in old(clients) ==>
        && clients == old(clients) - {c} && clientSubs == old(clientSubs) - {c}
        && Without(subs, old(subs), {c})
        && c.closed && c.queue == old(c.queue)
    {
      if c !in clients {
        return;
      }
      Forget(c);
      Uncount(c);
      clientSubs := clientSubs - {c};
      clients := clients - {c};
      c.closed := true;
    }

    // --------------------------------------------------------- messages

    method Refuse(c: Client, text: string)
      requires c !in seen && c.queue == [] && !c.closed
      modifies `seen, c
      ensures View() == HubSpec.Refuse(old(View()), c, text) && seen == old(seen) + {c}
    {
      ghost var s := View();
      seen := seen + {c};
      c.queue := c.queue + [Error(text)];
      c.closed := true;
      assert View().queues == HubSpec.Refuse(s, c, text).queues;
    }

    /** A new connection: admitted within the limits, else told why and closed. */
    method Register(c: Client)
      requires c !in seen && c.queue == [] && !c.closed
      modifies `clients, `clientSubs, `ipCount, `seen, c
      ensures View() == RegisterStep(old(View()), c) && seen == old(seen) + {c}
    {
      if |clients| >= MAX_TOTAL_CONNECTIONS {
        Refuse(c, "max connections reached");
        return;
      }
      if Count(ipCount, c.ip) >= MAX_CONN_PER_IP {
        Refuse(c, "max connections per IP reached");
        return;
      }
      Welcome(c);
    }

    method Welcome(c: Client)
      requires c !in seen && c.queue == [] && !c.closed
      modifies `clients, `clientSubs, `ipCount, `seen
      ensures View() == Admit(old(View()), c) && seen == old(seen) + {c}
    {
      ghost var s := View();
      clients := clients + {c};
      clientSubs := clientSubs[c := {}];
      ipCount := ipCount[c.ip := Count(ipCount, c.ip) + 1];
      seen := seen + {c};
      assert View().queues == Admit(s, c).queues;
    }

    method LinkMaps(c: Client, sub: Subscription)
      requires c in clientSubs
      modifies `subs, `clientSubs
      ensures View() == Link(old(View()), c, sub)
    {
      ghost var queues := View().queues;
      var subscribers := if sub in subs then subs[sub] else {};
      subs := subs[sub := subscribers + {c}];
      clientSubs := clientSubs[c := clientSubs[c] + {sub}];
      assert View().queues == queues;
    }

    method UnlinkMaps(c: Client, sub: Subscription)
      requires c in clientSubs
      modifies `subs, `clientSubs
      ensures View() == Unlink(old(View()), c, sub)
    {
      ghost var queues := View().queues;
      if sub in subs {
        subs := subs[sub := subs[sub] - {c}];
      }
      clientSubs := clientSubs[c := clientSubs[c] - {sub}];
      assert View().queues == queues;
    }

    method Subscribe(c: Client, sub: Subscription)
      requires Reachable(View(), c)
      modifies `subs, `clientSubs, c
      ensures View() == SubscribeStep(old(View()), c, sub) && (c !in clients ==> unchanged(c))
    {
      if c !in clients {
        return;
      }
      assert c in View().queues;
      if |clientSubs[c]| >= MAX_SUBS_PER_CLIENT {
        SendJSON(c, Error("max subscriptions reached"));
        return;
      }
      if sub in clientSubs[c] {
        return;
      }
      LinkMaps(c, sub);
      SendJSON(c, Message.Subscribed(sub));
    }

    method Unsubscribe(c: Client, sub: Subscription)
      requires Reachable(View(), c)
      modifies `subs, `clientSubs, c
      ensures View() == UnsubscribeStep(old(View()), c, sub) && (c !in clients ==> unchanged(c))
    {
      if c !in clients {
        return;
      }
      assert c in View().queues;
      UnlinkMaps(c, sub);
      SendJSON(c, Message.Unsubscribed(sub));
    }

    method DirectSend(c: Client, m: Message)
      requires Reachable(View(), c)
      modifies c
      ensures View() == if c in clients then SendTo(old(View()), c, m) else old(View())
      ensures c !in clients ==> unchanged(c)
    {
      if c in clients {
        assert c in View().queues;
        SendJSON(c, m);
      }
    }

    // -------------------------------------------------------- broadcast

    /** One copy to each subscriber with room, noting the others. */
    method SendToSubscribers(sub: Subscription, m: Message) returns (toKick: set<Client>)
      requires AllReachable(View(), sub)
      modifies SubscribersOf(View(), sub)
      ensures toKick == FullOnes(old(View()), sub)
      ensures View() == SendAll(old(View()), sub, m)
    {
      ghost var s := View();
      var todo := if sub in subs then subs[sub] else {};
      ghost var all := todo;
      assert all == SubscribersOf(s, sub);
      toKick := {};
      while todo != {}
        invariant todo <= all
        invariant toKick == set c | c in all - todo && s.queues[c].Full()
        invariant forall c :: c in seen ==> c.View() == if c in all - todo then s.queues[c].Send(m) else s.queues[c]
      {
        var c :| c in todo;
        assert c in s.queues && c.View() == s.queues[c];
        todo := todo - {c};
        if |c.queue| < SEND_CAP {
          c.queue := c.queue + [m];
        } else {
          toKick := toKick + {c};
        }
      }
      assert View().queues == SendAll(s, sub, m).queues;
    }

    /** Removes these clients, one after the other, in any order. */
    method KickAll(toKick: set<Client>)
      requires OnFile() && ipCount == IpCounts(clients) && toKick <= clients && clients <= seen && clientSubs.Keys == clients
      requires forall c :: c in clients ==> !c.closed
      modifies `clients, `subs, `clientSubs, `ipCount, toKick
      ensures clients == old(clients) - toKick && clientSubs == old(clientSubs) - toKick
      ensures Without(subs, old(subs), toKick)
      ensures ipCount == IpCounts(clients)
      ensures forall c :: c in toKick ==> c.closed && c.queue == old(c.queue)
    {
      var todo := toKick;
      while todo != {}
        invariant todo <= toKick && OnFile() && ipCount == IpCounts(clients)
        invariant clients == old(clients) - (toKick - todo) && clientSubs == old(clientSubs) - (toKick - todo)
        invariant Without(subs, old(subs), toKick - todo)
        invariant forall c :: c in old(clients) ==> (c.closed <==> c in toKick - todo) && c.queue == old(c.queue)
      {
        var c :| c in todo;
        RemoveClient(c);
        assert toKick - (todo - {c}) == toKick - todo + {c};
        todo := todo - {c};
      }
      assert toKick - todo == toKick;
    }

    /** Told by its effect on the whole hub. */
    method Kick(toKick: set<Client>)
      requires Inv(View()) && toKick <= clients
      modifies `clients, `subs, `clientSubs, `ipCount, toKick
      ensures View() == RemoveAll(old(View()), toKick)
    {
      ghost var s := View();
      OpenOnFile();
      KickAll(toKick);
      RemovedIs(s, toKick, View());
    }

    lemma OpenOnFile()
      requires Inv(View())
      ensures OnFile() && ipCount == IpCounts(clients) && clients <= seen && clientSubs.Keys == clients
      ensures forall c :: c in clients ==> !c.closed
    {
      var s := View();
      forall sub, c | sub in subs && c in subs[sub] ensures c in clientSubs && sub in clientSubs[c] {
        assert c in SubscribersOf(s, sub);
      }
      forall c | c in clients ensures c in seen && !c.closed {
        assert c in s.queues;
      }
    }

    lemma RemovedIs(s: HubVal, gone: set<Client>, r: HubVal)
      requires gone <= s.queues.Keys
      requires r.clients == s.clients - gone && r.clientSubs == s.clientSubs - gone
      requires Without(r.subs, s.subs, gone)
      requires r.ipCount == IpCounts(s.clients - gone)
      requires r.queues.Keys == s.queues.Keys
      requires forall c :: c in s.queues ==> r.queues[c] == if c in gone then s.queues[c].(closed := true) else s.queues[c]
      ensures r == RemoveAll(s, gone)
    {
      assert r.subs == RemoveAll(s, gone).subs;
      assert r.queues == RemoveAll(s, gone).queues;
    }

    method Broadcast(sub: Subscription, m: Message)
      requires Inv(View())
      modifies `clients, `subs, `clientSubs, `ipCount, SubscribersOf(View(), sub)
      ensures AllReachable(old(View()), sub) && View() == BroadcastTo(old(View()), sub, m)
    {
      ReachableSubscribers(View(), sub);
      SendAllInv(View(), sub, m);
      var toKick := SendToSubscribers(sub, m);
      Kick(toKick);
    }

    method Unregister(c: Client)
      requires Inv(View())
      modifies `clients, `subs, `clientSubs, `ipCount, c
      ensures View() == if c in old(clients) then RemoveAll(old(View()), {c}) else old(View())
      ensures c !in old(clients) ==> unchanged(c)
    {
      ghost var s := View();
      OpenOnFile();
      RemoveClient(c);
      if c in s.clients {
        RemovedIs(s, {c}, View());
      } else {
        assert View().queues == s.queues;
      }
    }

    /** The writer of a client takes the oldest message off its queue. */
    method Drain(c: Client)
      modifies c
      ensures View() == DrainStep(old(View()), c) && (old(c.queue) == [] ==> unchanged(c))
    {
      ghost var s := View();
      if |c.queue| > 0 {
        c.queue := c.queue[1..];
      }
      assert View().queues == DrainStep(s, c).queues;
    }

    /** The context is cancelled: everybody leaves. */
    method Shutdown()
      requires Inv(View())
      modifies `clients, `subs, `clientSubs, `ipCount, clients
      ensures View() == RemoveAll(old(View()), old(clients))
    {
      Kick(clients);
    }

    // --------------------------------------------------------- the loop

    /** The client a message is about, if it names one. */
    static function About(ev: Event): set<Client> {
      if ev.Broadcast? || ev.Shutdown? then {} else {ev.client}
    }

    /** A connection that is not registered yet: nothing was sent to it. */
    static predicate Untried(cs: set<Client>)
      reads cs
    {
      forall c :: c in cs ==> c.queue == [] && !c.closed
    }

    lemma SoundMaps(sub: Subscription)
      requires Inv(View())
      ensures clients <= seen && AllReachable(View(), sub) && SubscribersOf(View(), sub) <= seen
      ensures forall c :: c in clients ==> Reachable(View(), c)
    {
      OpenOnFile();
      ReachableSubscribers(View(), sub);
    }

    lemma SoundClient(c: Client)
      requires Inv(View())
      ensures Reachable(View(), c) && (c in clients ==> c in seen)
    {
      SoundMaps(Subscription("", ""));
    }

    static lemma SubscribeIs(s: HubVal, c: Client, sub: Subscription)
      requires Inv(s)
      ensures Reachable(s, c) && Step(s, Event.Subscribe(c, sub)) == SubscribeStep(s, c, sub)
    {
    }

    static lemma UnsubscribeIs(s: HubVal, c: Client, sub: Subscription)
      requires Inv(s)
      ensures Reachable(s, c) && Step(s, Event.Unsubscribe(c, sub)) == UnsubscribeStep(s, c, sub)
    {
    }

    static lemma DirectSendIs(s: HubVal, c: Client, m: Message)
      requires Inv(s)
      ensures Reachable(s, c) && Step(s, Event.DirectSend(c, m)) == if c in s.clients then SendTo(s, c, m) else s
    {
    }

    // Connections still waiting to register notice nothing of the others' messages.

    method OnRegister(c: Client, ghost waiting: set<Client>)
      requires Inv(View()) && c !in seen && waiting !! seen && Untried(waiting) && c in waiting
      modifies `clients, `clientSubs, `ipCount, `seen, c
      ensures View() == Step(old(View()), Event.Register(c)) && seen == old(seen) + {c} && Untried(waiting - {c})
    {
      Register(c);
    }

    method OnUnregister(c: Client, ghost waiting: set<Client>)
      requires Inv(View()) && waiting !! seen && Untried(waiting)
      modifies `clients, `subs, `clientSubs, `ipCount, c
      ensures View() == Step(old(View()), Event.Unregister(c)) && Untried(waiting)
    {
      SoundClient(c);
      Unregister(c);
    }

    method OnSubscribe(c: Client, sub: Subscription, ghost waiting: set<Client>)
      requires Inv(View()) && waiting !! seen && Untried(waiting)
      modifies `subs, `clientSubs, c
      ensures View() == Step(old(View()), Event.Subscribe(c, sub)) && Untried(waiting)
    {
      ghost var s := View();
      SoundClient(c);
      Subscribe(c, sub);
      SubscribeIs(s, c, sub);
    }

    method OnUnsubscribe(c: Client, sub: Subscription, ghost waiting: set<Client>)
      requires Inv(View()) && waiting !! seen && Untried(waiting)
      modifies `subs, `clientSubs, c
      ensures View() == Step(old(View()), Event.Unsubscribe(c, sub)) && Untried(waiting)
    {
      ghost var s := View();
      SoundClient(c);
      Unsubscribe(c, sub);
      UnsubscribeIs(s, c, sub);
    }

    method OnDirectSend(c: Client, m: Message, ghost waiting: set<Client>)
      requires Inv(View()) && waiting !! seen && Untried(waiting)
      modifies c
      ensures View() == Step(old(View()), Event.DirectSend(c, m)) && Untried(waiting)
    {
      ghost var s := View();
      SoundClient(c);
      DirectSend(c, m);
      DirectSendIs(s, c, m);
    }

    method OnBroadcast(sub: Subscription, m: Message, ghost waiting: set<Client>)
      requires Inv(View()) && waiting !! seen && Untried(waiting)
      modifies `clients, `subs, `clientSubs, `ipCount, seen
      ensures View() == Step(old(View()), Event.Broadcast(sub, m)) && Untried(waiting)
    {
      SoundMaps(sub);
      Broadcast(sub, m);
    }

    method OnShutdown(ghost waiting: set<Client>)
      requires Inv(View()) && waiting !! seen && Untried(waiting)
      modifies `clients, `subs, `clientSubs, `ipCount, seen
      ensures View() == Step(old(View()), Event.Shutdown) && Untried(waiting)
    {
      SoundMaps(Subscription("", ""));
      Shutdown();
    }

    method OnDrain(c: Client, ghost waiting: set<Client>)
      requires Inv(View()) && waiting !! seen && Untried(waiting)
      modifies c
      ensures View() == Step(old(View()), Event.Drain(c)) && Untried(waiting)
    {
      Drain(c);
    }

    /** One turn of the select. */
    method Dispatch(ev: Event, ghost waiting: set<Client>)
      requires Inv(View()) && Legal(View(), ev) && waiting !! seen && Untried(waiting)
      requires ev.Register? ==> ev.client in waiting
      modifies this, seen, About(ev)
      ensures View() == Step(old(View()), ev)
      ensures if ev.Register? then seen == old(seen) + {ev.client} && Untried(waiting - {ev.client}) else seen == old(seen) && Untried(waiting)
    {
      match ev {
        case Register(c) => OnRegister(c, waiting);
        case Unregister(c) => OnUnregister(c, waiting);
        case Subscribe(c, sub) => OnSubscribe(c, sub, waiting);
        case Unsubscribe(c, sub) => OnUnsubscribe(c, sub, waiting);
        case DirectSend(c, m) => OnDirectSend(c, m, waiting);
        case Broadcast(sub, m) => OnBroadcast(sub, m, waiting);
        case Drain(c) => OnDrain(c, waiting);
        case Shutdown => OnShutdown(waiting);
      }
    }

    static function Named(evs: seq<Event>): set<Client> {
      set i, c | 0 <= i < |evs| && c in About(evs[i]) :: c
    }

    /** None of the first n messages is the last of all. */
    static ghost predicate Going(evs: seq<Event>, n: int)
      requires n <= |evs|
    {
      forall i :: 0 <= i < n ==> !evs[i].Shutdown?
    }

    static lemma AreNamed(evs: seq<Event>, n: nat)
      requires n < |evs|
      ensures About(evs[n]) <= Named(evs) && Registered(evs[..n]) <= Named(evs)
      ensures evs[n].Register? ==> evs[n].client in Registered(evs)
    {
      forall c | c in Registered(evs[..n]) ensures c in Named(evs) {
        var i :| 0 <= i < n && evs[..n][i].Register? && evs[..n][i].client == c;
        assert evs[i] == evs[..n][i] && c in About(evs[i]);
      }
    }

    static lemma OncePrefix(evs: seq<Event>, n: nat)
      requires n <= |evs| && RegisteredOnce(evs)
      ensures RegisteredOnce(evs[..n])
    {
    }

    static lemma OneMessage(evs: seq<Event>, n: nat)
      requires n < |evs| && RegisteredOnce(evs) && RegisteredOnce(evs[..n])
      ensures RegisteredOnce(evs[..n + 1])
      ensures Legal(After(evs[..n]), evs[n]) && After(evs[..n + 1]) == Step(After(evs[..n]), evs[n])
    {
      OncePrefix(evs, n + 1);
      assert evs[..n + 1] == evs[..n] + [evs[n]];
      AfterMoves(evs[..n], evs[n]);
    }

    /** Message n of these. */
    method Turn(evs: seq<Event>, n: nat) returns (next: nat)
      requires n < |evs| && RegisteredOnce(evs) && RegisteredOnce(evs[..n])
      requires View() == After(evs[..n]) && Untried(Registered(evs) - seen)
      modifies this, seen, About(evs[n])
      ensures next == n + 1 && RegisteredOnce(evs[..next]) && View() == After(evs[..next])
      ensures seen <= old(seen) + About(evs[n]) && Untried(Registered(evs) - seen)
    {
      next := n + 1;
      OneMessage(evs, n);
      AreNamed(evs, n);
      ghost var waiting := Registered(evs) - seen;
      Dispatch(evs[n], waiting);
      assert Registered(evs) - seen <= waiting;
    }

    /** The hub after n of these messages, with whoever is still to register untouched. */
    ghost predicate Handled(evs: seq<Event>, n: nat)
      requires n <= |evs|
      reads this, Named(evs)
    {
      && seen <= Named(evs) && RegisteredOnce(evs[..n]) && View() == After(evs[..n])
      && Registered(evs) <= Named(evs) && Untried(Registered(evs) - seen)
    }

    static lemma NamedOnes(evs: seq<Event>)
      ensures Registered(evs) <= Named(evs)
    {
      forall c | c in Registered(evs) ensures c in Named(evs) {
        var i :| 0 <= i < |evs| && evs[i].Register? && evs[i].client == c;
        assert c in About(evs[i]);
      }
    }

    ghost method Begin(evs: seq<Event>)
      requires View() == NEW_HUB && RegisteredOnce(evs) && Untried(Registered(evs))
      ensures Handled(evs, 0)
    {
      NamedOnes(evs);
      assert View().queues.Keys == seen;
    }

    method NextTurn(evs: seq<Event>, n: nat) returns (next: nat, last: bool)
      requires n < |evs| && RegisteredOnce(evs) && Handled(evs, n)
      modifies this, Named(evs)
      ensures next == n + 1 && Handled(evs, next) && last == evs[n].Shutdown?
    {
      AreNamed(evs, n);
      next := Turn(evs, n);
      last := evs[n].Shutdown?;
    }

    /** The loop of the goroutine: message after message, until the context is cancelled. */
    method Run(evs: seq<Event>) returns (n: nat)
      requires View() == NEW_HUB && RegisteredOnce(evs) && Untried(Registered(evs))
      modifies this, Named(evs)
      ensures n <= |evs| && (n < |evs| ==> n > 0 && evs[n - 1].Shutdown?) && Going(evs, n - 1)
      ensures RegisteredOnce(evs[..n]) && View() == After(evs[..n])
    {
      Begin(evs);
      n := 0;
      var last := false;
      while n < |evs| && !last
        invariant n <= |evs| && Handled(evs, n)
        invariant if last then n > 0 && evs[n - 1].Shutdown? && Going(evs, n - 1) else Going(evs, n)
      {
        n, last := NextTurn(evs, n);
      }
    }
  }
}
