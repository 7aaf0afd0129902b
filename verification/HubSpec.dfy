/** The WebSocket hub as a state machine: what each message to its one goroutine
    does, and the relations that hold between its four maps in every state. */
module HubSpec {

  const MAX_TOTAL_CONNECTIONS := 1000
  const MAX_CONN_PER_IP := 10
  const MAX_SUBS_PER_CLIENT := 20
  const SEND_CAP := 256

  datatype Subscription = Subscription(channel: string, stock: string)

  datatype Message = Error(text: string) | Subscribed(sub: Subscription) | Unsubscribed(sub: Subscription) | Payload(data: string)

  /** A connection: its address, and its outbound queue, which can be closed. */
  class Client {
    const ip: string
    var queue: seq<Message>
    var closed: bool

    constructor (ip: string)
      ensures this.ip == ip && queue == [] && !closed
    {
      this.ip, queue, closed := ip, [], false;
    }

    function View(): Chan
      reads this
    {
      Chan(queue, closed)
    }
  }

  /** A send queue. Sending on a closed one, or closing it again, would panic. */
  datatype Chan = Chan(msgs: seq<Message>, closed: bool) {
    function Send(m: Message): Chan
      requires !closed
    {
      if |msgs| < SEND_CAP then Chan(msgs + [m], false) else this
    }

    function Close(): Chan
      requires !closed
    {
      Chan(msgs, true)
    }

    predicate Full() {
      |msgs| >= SEND_CAP
    }
  }

  /** The maps of the hub, and the queue of every client it was ever sent. */
  datatype HubVal = HubVal(
    clients: set<Client>,
    subs: map<Subscription, set<Client>>,
    clientSubs: map<Client, set<Subscription>>,
    ipCount: map<string, int>,
    queues: map<Client, Chan>)

  datatype Event =
    | Register(client: Client)
    | Unregister(client: Client)
    | Subscribe(client: Client, sub: Subscription)
    | Unsubscribe(client: Client, sub: Subscription)
    | DirectSend(client: Client, msg: Message)
    | Broadcast(sub: Subscription, msg: Message)
    | Drain(client: Client)
    | Shutdown

  const NEW_HUB := HubVal({}, map[], map[], map[], map[])

  function At(clients: set<Client>, ip: string): set<Client> {
    set c | c in clients && c.ip == ip
  }

  function IpsOf(clients: set<Client>): set<string> {
    set c | c in clients :: c.ip
  }

  /** How many of these clients each address has, for the addresses it has any. */
  function IpCounts(clients: set<Client>): map<string, int> {
    map ip | ip in IpsOf(clients) :: |At(clients, ip)|
  }

  function Count(ipCount: map<string, int>, ip: string): int {
    if ip in ipCount then ipCount[ip] else 0
  }

  function SubscribersOf(s: HubVal, sub: Subscription): set<Client> {
    if sub in s.subs then s.subs[sub] else {}
  }

  /** The clients with this subscription on file. */
  function Holders(s: HubVal, sub: Subscription): set<Client>
    requires s.clientSubs.Keys == s.clients
  {
    set c | c in s.clients && sub in s.clientSubs[c]
  }

  /** The two subscription maps are inverse relations over the clients. */
  ghost predicate SubsInv(s: HubVal) {
    && s.clientSubs.Keys == s.clients
    && (forall sub :: SubscribersOf(s, sub) == Holders(s, sub))
    && (forall c :: c in s.clients ==> |s.clientSubs[c]| <= MAX_SUBS_PER_CLIENT)
  }

  /** The address counts are exact, so positive, and the limits hold. */
  ghost predicate CountInv(s: HubVal) {
    && s.ipCount == IpCounts(s.clients)
    && |s.clients| <= MAX_TOTAL_CONNECTIONS
    && (forall ip :: Count(s.ipCount, ip) <= MAX_CONN_PER_IP)
  }

  /** The open queues are those of the clients. */
  ghost predicate QueueInv(s: HubVal) {
    && s.clients == (set c | c in s.queues && !s.queues[c].closed)
    && (forall c :: c in s.queues ==> |s.queues[c].msgs| <= SEND_CAP)
  }

  ghost predicate Inv(s: HubVal) {
    SubsInv(s) && CountInv(s) && QueueInv(s)
  }

  function SendTo(s: HubVal, c: Client, m: Message): HubVal
    requires c in s.queues && !s.queues[c].closed
  {
    s.(queues := s.queues[c := s.queues[c].Send(m)])
  }

  /** These clients leave: nothing in the maps mentions them any more and their
      queues are closed. */
  function RemoveAll(s: HubVal, gone: set<Client>): HubVal {
    HubVal(
      s.clients - gone,
      map sub | sub in s.subs :: s.subs[sub] - gone,
      s.clientSubs - gone,
      IpCounts(s.clients - gone),
      map c | c in s.queues :: if c in gone then s.queues[c].(closed := true) else s.queues[c])
  }

  /** A refused newcomer gets an error and a closed queue. */
  function Refuse(s: HubVal, c: Client, text: string): HubVal
    requires c !in s.queues
  {
    s.(queues := s.queues[c := Chan([], false).Send(Error(text)).Close()])
  }

  function FullOnes(s: HubVal, sub: Subscription): set<Client>
    requires AllReachable(s, sub)
  {
    set c | c in SubscribersOf(s, sub) && s.queues[c].Full()
  }

  /** The subscribers' queues are there and open. */
  predicate AllReachable(s: HubVal, sub: Subscription) {
    forall c :: c in SubscribersOf(s, sub) ==> c in s.queues && !s.queues[c].closed
  }

  /** One copy to every subscriber with room. */
  function SendAll(s: HubVal, sub: Subscription, m: Message): HubVal
    requires AllReachable(s, sub)
  {
    s.(queues := map c | c in s.queues :: if c in SubscribersOf(s, sub) then s.queues[c].Send(m) else s.queues[c])
  }

  /** One copy to every subscriber with room; the full ones are removed. */
  function BroadcastTo(s: HubVal, sub: Subscription, m: Message): HubVal
    requires AllReachable(s, sub)
  {
    RemoveAll(SendAll(s, sub, m), FullOnes(s, sub))
  }

  lemma ReachableSubscribers(s: HubVal, sub: Subscription)
    requires Inv(s)
    ensures AllReachable(s, sub) && SubscribersOf(s, sub) <= s.clients
  {
  }

  /** A client is registered once, with an open empty queue of its own. */
  predicate Legal(s: HubVal, ev: Event) {
    ev.Register? ==> ev.client !in s.queues
  }

  /** A client has its subscriptions on file and an open queue. */
  predicate Reachable(s: HubVal, c: Client) {
    c in s.clients ==> c in s.clientSubs && c in s.queues && !s.queues[c].closed
  }

  /** Room for all, then room for the address: else the newcomer is refused. */
  function RegisterStep(s: HubVal, c: Client): HubVal
    requires c !in s.queues
  {
    if |s.clients| >= MAX_TOTAL_CONNECTIONS then Refuse(s, c, "max connections reached")
    else if Count(s.ipCount, c.ip) >= MAX_CONN_PER_IP then Refuse(s, c, "max connections per IP reached")
    else Admit(s, c)
  }

  function Admit(s: HubVal, c: Client): HubVal {
    HubVal(s.clients + {c}, s.subs, s.clientSubs[c := {}], s.ipCount[c.ip := Count(s.ipCount, c.ip) + 1], s.queues[c := Chan([], false)])
  }

  /** Closed queues are as they were. */
  ghost predicate ClosedUntouched(s: HubVal, r: HubVal) {
    forall c :: c in s.queues && s.queues[c].closed ==> c in r.queues && r.queues[c] == s.queues[c]
  }

  function Link(s: HubVal, c: Client, sub: Subscription): HubVal
    requires c in s.clientSubs
  {
    s.(subs := s.subs[sub := SubscribersOf(s, sub) + {c}], clientSubs := s.clientSubs[c := s.clientSubs[c] + {sub}])
  }

  function Unlink(s: HubVal, c: Client, sub: Subscription): HubVal
    requires c in s.clientSubs
  {
    s.(subs := if sub in s.subs then s.subs[sub := s.subs[sub] - {c}] else s.subs,
       clientSubs := s.clientSubs[c := s.clientSubs[c] - {sub}])
  }

  /** The limit is looked at before the subscription: a full client is told so even
      about a subscription it has. */
  function SubscribeStep(s: HubVal, c: Client, sub: Subscription): HubVal
    requires Reachable(s, c)
  {
    if c !in s.clients then s
    else if |s.clientSubs[c]| >= MAX_SUBS_PER_CLIENT then SendTo(s, c, Error("max subscriptions reached"))
    else if sub in s.clientSubs[c] then s
    else SendTo(Link(s, c, sub), c, Subscribed(sub))
  }

  function UnsubscribeStep(s: HubVal, c: Client, sub: Subscription): HubVal
    requires Reachable(s, c)
  {
    if c !in s.clients then s else SendTo(Unlink(s, c, sub), c, Unsubscribed(sub))
  }

  function DrainStep(s: HubVal, c: Client): HubVal {
    if c in s.queues && s.queues[c].msgs != [] then s.(queues := s.queues[c := s.queues[c].(msgs := s.queues[c].msgs[1..])]) else s
  }

  // ---------------------------------------------------------- invariance

  lemma CountsAt(clients: set<Client>, ip: string)
    ensures Count(IpCounts(clients), ip) == |At(clients, ip)|
  {
    if ip !in IpsOf(clients) {
      assert At(clients, ip) == {};
    }
  }

  lemma Fewer(a: set<Client>, b: set<Client>)
    requires a <= b
    ensures |a| <= |b|
  {
    if a != {} {
      var c :| c in a;
      Fewer(a - {c}, b - {c});
    }
  }

  lemma AddCounts(clients: set<Client>, c: Client)
    requires c !in clients
    ensures IpCounts(clients + {c}) == IpCounts(clients)[c.ip := Count(IpCounts(clients), c.ip) + 1]
  {
    var grown, r := clients + {c}, IpCounts(clients)[c.ip := Count(IpCounts(clients), c.ip) + 1];
    CountsAt(clients, c.ip);
    IpsGrow(clients, c);
    assert At(grown, c.ip) == At(clients, c.ip) + {c};
    forall ip | ip in r ensures IpCounts(grown)[ip] == r[ip] {
      assert ip != c.ip ==> At(grown, ip) == At(clients, ip);
    }
    assert IpCounts(grown).Keys == r.Keys;
  }

  lemma IpsGrow(clients: set<Client>, c: Client)
    ensures IpsOf(clients + {c}) == IpsOf(clients) + {c.ip}
  {
    forall ip | ip in IpsOf(clients) ensures ip in IpsOf(clients + {c}) {
      var d :| d in clients && d.ip == ip;
      assert d in clients + {c};
    }
    assert c in clients + {c};
  }

  /** The program's decrement, with its deletion at zero, keeps the counts exact. */
  lemma DropCounts(clients: set<Client>, c: Client)
    requires c in clients
    ensures var n := Count(IpCounts(clients), c.ip);
      && n >= 1
      && IpCounts(clients - {c}) == if n - 1 <= 0 then IpCounts(clients) - {c.ip} else IpCounts(clients)[c.ip := n - 1]
  {
    CountsAt(clients, c.ip);
    assert At(clients, c.ip) == At(clients - {c}, c.ip) + {c};
    forall ip | ip != c.ip ensures At(clients - {c}, ip) == At(clients, ip) {}
    forall ip | ip != c.ip && ip in IpsOf(clients) ensures ip in IpsOf(clients - {c}) {
      var d :| d in clients && d.ip == ip;
      assert d in clients - {c};
    }
    if At(clients - {c}, c.ip) != {} {
      var d :| d in At(clients - {c}, c.ip);
      assert c.ip in IpsOf(clients - {c});
    } else {
      assert c.ip !in IpsOf(clients - {c});
    }
  }

  lemma RemoveAllCounts(s: HubVal, gone: set<Client>)
    requires CountInv(s) && gone <= s.clients
    ensures CountInv(RemoveAll(s, gone))
  {
    var r := RemoveAll(s, gone);
    Fewer(r.clients, s.clients);
    forall ip ensures Count(r.ipCount, ip) <= MAX_CONN_PER_IP {
      CountsAt(s.clients, ip);
      CountsAt(r.clients, ip);
      Fewer(At(r.clients, ip), At(s.clients, ip));
    }
  }

  lemma RemoveAllSubs(s: HubVal, gone: set<Client>)
    requires SubsInv(s) && gone <= s.clients
    ensures SubsInv(RemoveAll(s, gone))
  {
    var r := RemoveAll(s, gone);
    forall sub ensures SubscribersOf(r, sub) == set c | c in r.clients && sub in r.clientSubs[c] {
      assert SubscribersOf(r, sub) == SubscribersOf(s, sub) - gone;
    }
  }

  lemma RemoveAllQueues(s: HubVal, gone: set<Client>)
    requires QueueInv(s) && gone <= s.clients
    ensures QueueInv(RemoveAll(s, gone)) && RemoveAll(s, gone).queues.Keys == s.queues.Keys && ClosedUntouched(s, RemoveAll(s, gone))
  {
    var r := RemoveAll(s, gone);
    assert r.queues.Keys == s.queues.Keys;
  }

  lemma RemoveAllInv(s: HubVal, gone: set<Client>)
    requires Inv(s) && gone <= s.clients
    ensures Inv(RemoveAll(s, gone)) && RemoveAll(s, gone).queues.Keys == s.queues.Keys && ClosedUntouched(s, RemoveAll(s, gone))
  {
    RemoveAllCounts(s, gone);
    RemoveAllSubs(s, gone);
    RemoveAllQueues(s, gone);
  }

  lemma SendInv(s: HubVal, c: Client, m: Message)
    requires Inv(s) && c in s.clients
    ensures Inv(SendTo(s, c, m)) && SendTo(s, c, m).queues.Keys == s.queues.Keys && ClosedUntouched(s, SendTo(s, c, m))
  {
    SameSubs(s, SendTo(s, c, m));
  }

  lemma SameSubs(s: HubVal, r: HubVal)
    requires SubsInv(s) && r.clients == s.clients && r.subs == s.subs && r.clientSubs == s.clientSubs
    ensures SubsInv(r)
  {
    forall sub ensures SubscribersOf(r, sub) == Holders(r, sub) {
      assert SubscribersOf(r, sub) == SubscribersOf(s, sub);
    }
  }

  lemma AdmitCounts(s: HubVal, c: Client)
    requires CountInv(s) && c !in s.clients && |s.clients| < MAX_TOTAL_CONNECTIONS && Count(s.ipCount, c.ip) < MAX_CONN_PER_IP
    ensures CountInv(s.(clients := s.clients + {c}, ipCount := s.ipCount[c.ip := Count(s.ipCount, c.ip) + 1]))
  {
    var counts := s.ipCount[c.ip := Count(s.ipCount, c.ip) + 1];
    AddCounts(s.clients, c);
    forall ip ensures Count(counts, ip) <= MAX_CONN_PER_IP {
      assert ip != c.ip ==> Count(counts, ip) == Count(s.ipCount, ip);
    }
  }

  lemma AdmitSubs(s: HubVal, c: Client)
    requires SubsInv(s) && c !in s.clients
    ensures SubsInv(s.(clients := s.clients + {c}, clientSubs := s.clientSubs[c := {}]))
  {
    var r := s.(clients := s.clients + {c}, clientSubs := s.clientSubs[c := {}]);
    forall sub ensures SubscribersOf(r, sub) == Holders(r, sub) {
      assert SubscribersOf(r, sub) == SubscribersOf(s, sub);
    }
  }

  lemma AdmitQueues(s: HubVal, c: Client)
    requires QueueInv(s) && c !in s.queues
    ensures QueueInv(Admit(s, c)) && Admit(s, c).queues.Keys == s.queues.Keys + {c} && ClosedUntouched(s, Admit(s, c))
  {
  }

  lemma AdmitInv(s: HubVal, c: Client)
    requires Inv(s) && c !in s.queues && |s.clients| < MAX_TOTAL_CONNECTIONS && Count(s.ipCount, c.ip) < MAX_CONN_PER_IP
    ensures Inv(Admit(s, c)) && Admit(s, c).queues.Keys == s.queues.Keys + {c} && ClosedUntouched(s, Admit(s, c))
  {
    AdmitCounts(s, c);
    AdmitSubs(s, c);
    SameSubs(s.(clients := s.clients + {c}, clientSubs := s.clientSubs[c := {}]), Admit(s, c));
    AdmitQueues(s, c);
  }

  lemma RefusalSays(s: HubVal, c: Client, text: string)
    requires c !in s.queues
    ensures Refuse(s, c, text) == s.(queues := s.queues[c := Chan([Error(text)], true)])
  {
    assert [] + [Error(text)] == [Error(text)];
  }

  lemma RefuseInv(s: HubVal, c: Client, text: string)
    requires Inv(s) && c !in s.queues
    ensures Inv(Refuse(s, c, text)) && Refuse(s, c, text).queues.Keys == s.queues.Keys + {c} && ClosedUntouched(s, Refuse(s, c, text))
  {
    var q := Chan([Error(text)], true);
    var r := s.(queues := s.queues[c := q]);
    RefusalSays(s, c, text);
    assert CountInv(r);
    SameSubs(s, r);
    RefuseQueues(s, c, q);
  }

  lemma RefuseQueues(s: HubVal, c: Client, q: Chan)
    requires QueueInv(s) && c !in s.queues && q.closed && |q.msgs| <= SEND_CAP
    ensures QueueInv(s.(queues := s.queues[c := q])) && ClosedUntouched(s, s.(queues := s.queues[c := q]))
  {
    var r := s.(queues := s.queues[c := q]);
    assert forall d :: d in r.queues && !r.queues[d].closed <==> d in s.queues && !s.queues[d].closed;
  }

  lemma RegisterInv(s: HubVal, c: Client)
    requires Inv(s) && c !in s.queues
    ensures Inv(RegisterStep(s, c)) && RegisterStep(s, c).queues.Keys == s.queues.Keys + {c} && ClosedUntouched(s, RegisterStep(s, c))
  {
    var r := RegisterStep(s, c);
    if |s.clients| >= MAX_TOTAL_CONNECTIONS {
      RefuseInv(s, c, "max connections reached");
      assert r == Refuse(s, c, "max connections reached");
    } else if Count(s.ipCount, c.ip) >= MAX_CONN_PER_IP {
      RefuseInv(s, c, "max connections per IP reached");
      assert r == Refuse(s, c, "max connections per IP reached");
    } else {
      AdmitInv(s, c);
      assert r == Admit(s, c);
    }
  }

  lemma LinkInv(s: HubVal, c: Client, sub: Subscription)
    requires Inv(s) && c in s.clients && |s.clientSubs[c]| < MAX_SUBS_PER_CLIENT && sub !in s.clientSubs[c]
    ensures Inv(Link(s, c, sub))
  {
    LinkSubs(s, c, sub);
    assert CountInv(Link(s, c, sub)) && QueueInv(Link(s, c, sub));
  }

  lemma LinkedAt(s: HubVal, c: Client, sub: Subscription, x: Subscription)
    requires s.clientSubs.Keys == s.clients && c in s.clients && SubscribersOf(s, x) == Holders(s, x)
    ensures Link(s, c, sub).clientSubs.Keys == s.clients && SubscribersOf(Link(s, c, sub), x) == Holders(Link(s, c, sub), x)
  {
  }

  lemma LinkSubs(s: HubVal, c: Client, sub: Subscription)
    requires SubsInv(s) && c in s.clients && |s.clientSubs[c]| < MAX_SUBS_PER_CLIENT && sub !in s.clientSubs[c]
    ensures SubsInv(Link(s, c, sub))
  {
    forall x ensures SubscribersOf(Link(s, c, sub), x) == Holders(Link(s, c, sub), x) {
      LinkedAt(s, c, sub, x);
    }
  }

  lemma UnlinkInv(s: HubVal, c: Client, sub: Subscription)
    requires Inv(s) && c in s.clients
    ensures Inv(Unlink(s, c, sub))
  {
    UnlinkSubs(s, c, sub);
    assert CountInv(Unlink(s, c, sub)) && QueueInv(Unlink(s, c, sub));
  }

  lemma UnlinkedAt(s: HubVal, c: Client, sub: Subscription, x: Subscription)
    requires s.clientSubs.Keys == s.clients && c in s.clients && SubscribersOf(s, x) == Holders(s, x)
    ensures Unlink(s, c, sub).clientSubs.Keys == s.clients && SubscribersOf(Unlink(s, c, sub), x) == Holders(Unlink(s, c, sub), x)
  {
  }

  lemma UnlinkSubs(s: HubVal, c: Client, sub: Subscription)
    requires SubsInv(s) && c in s.clients
    ensures SubsInv(Unlink(s, c, sub))
  {
    forall x ensures SubscribersOf(Unlink(s, c, sub), x) == Holders(Unlink(s, c, sub), x) {
      UnlinkedAt(s, c, sub, x);
    }
  }

  lemma SubscribeInv(s: HubVal, c: Client, sub: Subscription)
    requires Inv(s)
    ensures Inv(SubscribeStep(s, c, sub)) && SubscribeStep(s, c, sub).queues.Keys == s.queues.Keys && ClosedUntouched(s, SubscribeStep(s, c, sub))
  {
    if c in s.clients {
      if |s.clientSubs[c]| >= MAX_SUBS_PER_CLIENT {
        SendInv(s, c, Error("max subscriptions reached"));
      } else if sub !in s.clientSubs[c] {
        LinkInv(s, c, sub);
        SendInv(Link(s, c, sub), c, Subscribed(sub));
      }
    }
  }

  lemma UnsubscribeInv(s: HubVal, c: Client, sub: Subscription)
    requires Inv(s)
    ensures Inv(UnsubscribeStep(s, c, sub)) && UnsubscribeStep(s, c, sub).queues.Keys == s.queues.Keys && ClosedUntouched(s, UnsubscribeStep(s, c, sub))
  {
    if c in s.clients {
      UnlinkInv(s, c, sub);
      SendInv(Unlink(s, c, sub), c, Unsubscribed(sub));
    }
  }

  lemma DrainInv(s: HubVal, c: Client)
    requires Inv(s)
    ensures Inv(DrainStep(s, c)) && DrainStep(s, c).queues.Keys == s.queues.Keys
  {
    SameSubs(s, DrainStep(s, c));
  }

  lemma BroadcastInv(s: HubVal, sub: Subscription, m: Message)
    requires Inv(s)
    ensures AllReachable(s, sub) && Inv(BroadcastTo(s, sub, m)) && BroadcastTo(s, sub, m).queues.Keys == s.queues.Keys && ClosedUntouched(s, BroadcastTo(s, sub, m))
  {
    ReachableSubscribers(s, sub);
    var sent := SendAll(s, sub, m);
    SameSubs(s, sent);
    SendAllQueues(s, sub, m);
    RemoveAllInv(sent, FullOnes(s, sub));
  }

  lemma SendAllInv(s: HubVal, sub: Subscription, m: Message)
    requires Inv(s)
    ensures AllReachable(s, sub) && Inv(SendAll(s, sub, m))
  {
    ReachableSubscribers(s, sub);
    SameSubs(s, SendAll(s, sub, m));
    SendAllQueues(s, sub, m);
  }

  lemma SendAllQueues(s: HubVal, sub: Subscription, m: Message)
    requires Inv(s)
    ensures AllReachable(s, sub) && QueueInv(SendAll(s, sub, m)) && SendAll(s, sub, m).queues.Keys == s.queues.Keys && ClosedUntouched(s, SendAll(s, sub, m))
  {
    ReachableSubscribers(s, sub);
    var sent := SendAll(s, sub, m);
    assert sent.queues.Keys == s.queues.Keys;
  }

  /** What each message does. The contract says that it keeps the relations, the
      counts, the limits and the queues. */
  function Step(s: HubVal, ev: Event): (r: HubVal)
    requires Inv(s) && Legal(s, ev)
    ensures Inv(r) && r.queues.Keys == s.queues.Keys + if ev.Register? then {ev.client} else {}
    ensures if ev.Drain? then r == DrainStep(s, ev.client) else ClosedUntouched(s, r)
  {
    match ev
    case Register(c) => RegisterInv(s, c); RegisterStep(s, c)
    case Unregister(c) => if c in s.clients then RemoveAllInv(s, {c}); RemoveAll(s, {c}) else s
    case Subscribe(c, sub) => SubscribeInv(s, c, sub); SubscribeStep(s, c, sub)
    case Unsubscribe(c, sub) => UnsubscribeInv(s, c, sub); UnsubscribeStep(s, c, sub)
    case DirectSend(c, m) => if c in s.clients then SendInv(s, c, m); SendTo(s, c, m) else s
    case Broadcast(sub, m) => BroadcastInv(s, sub, m); BroadcastTo(s, sub, m)
    case Drain(c) => DrainInv(s, c); DrainStep(s, c)
    case Shutdown => RemoveAllInv(s, s.clients); RemoveAll(s, s.clients)
  }

  ghost predicate RegisteredOnce(evs: seq<Event>) {
    forall i, j :: 0 <= i < j < |evs| && evs[i].Register? && evs[j].Register? ==> evs[i].client != evs[j].client
  }

  ghost function Registered(evs: seq<Event>): set<Client> {
    set i | 0 <= i < |evs| && evs[i].Register? :: evs[i].client
  }

  /** The hub after any messages in any order, each client registered at most once:
      the contract is the invariant of every reachable state. */
  ghost function After(evs: seq<Event>): (s: HubVal)
    requires RegisteredOnce(evs)
    ensures Inv(s) && s.queues.Keys == Registered(evs)
  {
    if evs == [] then NEW_HUB
    else
      var front, ev := evs[..|evs| - 1], evs[|evs| - 1];
      OnceMore(evs);
      Step(After(front), ev)
  }

  lemma OnceMore(evs: seq<Event>)
    requires RegisteredOnce(evs) && evs != []
    ensures var front, ev := evs[..|evs| - 1], evs[|evs| - 1];
      && RegisteredOnce(front)
      && (ev.Register? ==> ev.client !in Registered(front))
      && Registered(evs) == Registered(front) + if ev.Register? then {ev.client} else {}
  {
    var front, ev := evs[..|evs| - 1], evs[|evs| - 1];
    forall c | c in Registered(front) ensures c in Registered(evs) {
      var i :| 0 <= i < |front| && front[i].Register? && front[i].client == c;
      assert evs[i] == front[i];
    }
    forall c | c in Registered(evs) && !(ev.Register? && c == ev.client) ensures c in Registered(front) {
      var i :| 0 <= i < |evs| && evs[i].Register? && evs[i].client == c;
      assert front[i] == evs[i];
    }
  }

  // ------------------------------------------------------- channel safety

  /** A closed queue stays closed and nothing is ever added to it: only its reader
      still takes messages off. */
  lemma ClosedIsFinal(s: HubVal, ev: Event, c: Client)
    requires Inv(s) && Legal(s, ev) && c in s.queues && s.queues[c].closed
    ensures c in Step(s, ev).queues && Step(s, ev).queues[c].closed
    ensures Step(s, ev).queues[c].msgs == if ev == Drain(c) && s.queues[c].msgs != [] then s.queues[c].msgs[1..] else s.queues[c].msgs
  {
    if ev.Drain? {
      DrainTouchesOne(s, ev.client, c);
    } else {
      UntouchedStays(s, Step(s, ev), c);
    }
  }

  lemma UntouchedStays(s: HubVal, r: HubVal, c: Client)
    requires ClosedUntouched(s, r) && c in s.queues && s.queues[c].closed
    ensures c in r.queues && r.queues[c] == s.queues[c]
  {
  }

  /** How often its reader takes from the queue of c between moments i and j. */
  function Drains(evs: seq<Event>, i: nat, j: nat, c: Client): nat
    requires i <= j <= |evs|
  {
    if i == j then 0 else Drains(evs, i, j - 1, c) + if evs[j - 1] == Drain(c) then 1 else 0
  }

  /** What is left after n messages were taken off the front. */
  function Dropped(msgs: seq<Message>, n: nat): seq<Message> {
    if n < |msgs| then msgs[n..] else []
  }

  lemma DropOneMore(msgs: seq<Message>, n: nat)
    ensures Dropped(msgs, 0) == msgs
    ensures var left := Dropped(msgs, n); Dropped(msgs, n + 1) == if left != [] then left[1..] else left
  {
  }

  /** Event ev takes the hub from s to r. */
  ghost predicate Moves(s: HubVal, ev: Event, r: HubVal) {
    Inv(s) && Legal(s, ev) && r == Step(s, ev)
  }

  /** The hub of any run moves this way. */
  lemma AfterMoves(evs: seq<Event>, ev: Event)
    requires RegisteredOnce(evs + [ev])
    ensures RegisteredOnce(evs) && Moves(After(evs), ev, After(evs + [ev]))
  {
    var all := evs + [ev];
    assert all[..|all| - 1] == evs;
    OnceMore(all);
  }

  ghost predicate ClosedWith(s: HubVal, c: Client, msgs: seq<Message>) {
    c in s.queues && s.queues[c] == Chan(msgs, true)
  }

  lemma StaysClosed(s: HubVal, ev: Event, r: HubVal, c: Client, msgs: seq<Message>, n: nat)
    requires Moves(s, ev, r) && ClosedWith(s, c, Dropped(msgs, n))
    ensures ClosedWith(r, c, Dropped(msgs, n + if ev == Drain(c) then 1 else 0))
  {
    ClosedIsFinal(s, ev, c);
    DropOneMore(msgs, n);
  }

  ghost predicate MovesAt(states: seq<HubVal>, evs: seq<Event>, t: nat) {
    t < |evs| && t + 1 < |states| && Moves(states[t], evs[t], states[t + 1])
  }

  /** A run, from any state that meets the invariant. */
  ghost predicate IsRun(states: seq<HubVal>, evs: seq<Event>) {
    |states| == |evs| + 1 && forall t :: 0 <= t < |evs| ==> MovesAt(states, evs, t)
  }

  lemma StaysClosedAt(states: seq<HubVal>, evs: seq<Event>, t: nat, c: Client, msgs: seq<Message>, n: nat)
    requires IsRun(states, evs) && t < |evs| && ClosedWith(states[t], c, Dropped(msgs, n))
    ensures ClosedWith(states[t + 1], c, Dropped(msgs, n + if evs[t] == Drain(c) then 1 else 0))
  {
    assert MovesAt(states, evs, t);
    StaysClosed(states[t], evs[t], states[t + 1], c, msgs, n);
  }

  /** In any run, once a queue is closed it is closed for good, and what it will ever
      hold is what it held then, less what its reader has taken off the front. */
  lemma {:induction false} ClosedForGood(states: seq<HubVal>, evs: seq<Event>, i: nat, j: nat, c: Client, msgs: seq<Message>)
    requires IsRun(states, evs) && i <= j <= |evs| && ClosedWith(states[i], c, msgs)
    ensures ClosedWith(states[j], c, Dropped(msgs, Drains(evs, i, j, c)))
    decreases j - i
  {
    if i == j {
      DropOneMore(msgs, 0);
    } else {
      ClosedForGood(states, evs, i, j - 1, c, msgs);
      StaysClosedAt(states, evs, j - 1, c, msgs, Drains(evs, i, j - 1, c));
    }
  }

  /** The states a run of these events goes through: the hub after each of them. */
  ghost function StatesOf(evs: seq<Event>): (states: seq<HubVal>)
    requires RegisteredOnce(evs)
  {
    seq(|evs| + 1, t requires 0 <= t <= |evs| => After(evs[..t]))
  }

  lemma StatesAreRun(evs: seq<Event>)
    requires RegisteredOnce(evs)
    ensures IsRun(StatesOf(evs), evs)
  {
    forall t | 0 <= t < |evs| ensures MovesAt(StatesOf(evs), evs, t) {
      assert evs[..t + 1] == evs[..t] + [evs[t]];
      AfterMoves(evs[..t], evs[t]);
    }
  }

  /** So for the hub: after whatever messages a queue was closed, it stays so. */
  lemma ClosedInEveryRun(evs: seq<Event>, i: nat, j: nat, c: Client, msgs: seq<Message>)
    requires RegisteredOnce(evs) && i <= j <= |evs| && ClosedWith(StatesOf(evs)[i], c, msgs)
    ensures ClosedWith(StatesOf(evs)[j], c, Dropped(msgs, Drains(evs, i, j, c)))
  {
    StatesAreRun(evs);
    ClosedForGood(StatesOf(evs), evs, i, j, c, msgs);
  }

  lemma DrainTouchesOne(s: HubVal, d: Client, c: Client)
    requires c in s.queues
    ensures c in DrainStep(s, d).queues && DrainStep(s, d).queues[c].closed == s.queues[c].closed
    ensures DrainStep(s, d).queues[c].msgs == if c == d && s.queues[c].msgs != [] then s.queues[c].msgs[1..] else s.queues[c].msgs
  {
  }

  /** A broadcast adds one copy for exactly the subscribers with room, removes
      exactly the full ones, and leaves everybody else alone. */
  lemma BroadcastExact(s: HubVal, sub: Subscription, m: Message, c: Client)
    requires Inv(s) && c in s.queues
    ensures AllReachable(s, sub)
    ensures var r, subscribed := BroadcastTo(s, sub, m), c in SubscribersOf(s, sub);
      && c in r.queues
      && (subscribed && !s.queues[c].Full() ==>
            c in r.clients && r.queues[c] == Chan(s.queues[c].msgs + [m], false) && r.clientSubs[c] == s.clientSubs[c])
      && (subscribed && s.queues[c].Full() ==>
            c !in r.clients && r.queues[c] == Chan(s.queues[c].msgs, true) && forall x :: c !in SubscribersOf(r, x))
      && (!subscribed ==>
            r.queues[c] == s.queues[c] && (c in r.clients <==> c in s.clients) && (c in s.clients ==> r.clientSubs[c] == s.clientSubs[c]))
  {
    ReachableSubscribers(s, sub);
    BroadcastInv(s, sub, m);
    var r := BroadcastTo(s, sub, m);
    if c !in r.clients {
      forall x ensures c !in SubscribersOf(r, x) {}
    }
  }

  /** Leaving in two goes, in any order, is leaving together: the result of a
      broadcast does not depend on the order the maps are walked in. */
  lemma RemoveTogether(s: HubVal, a: set<Client>, b: set<Client>)
    ensures RemoveAll(RemoveAll(s, a), b) == RemoveAll(s, a + b)
  {
    var l, r := RemoveAll(RemoveAll(s, a), b), RemoveAll(s, a + b);
    assert s.clients - a - b == s.clients - (a + b);
    forall sub | sub in s.subs ensures l.subs[sub] == r.subs[sub] {
      assert s.subs[sub] - a - b == s.subs[sub] - (a + b);
    }
    assert l.subs == r.subs;
    assert l.clientSubs == r.clientSubs;
    assert l.queues == r.queues;
  }

  /** A newcomer is admitted exactly when there is room for one more in all and for
      one more at its address; otherwise its queue holds one error and is closed. */
  lemma AdmittedExactly(s: HubVal, c: Client)
    requires Inv(s) && c !in s.queues
    ensures var r := RegisterStep(s, c);
      && c in r.queues
      && (c in r.clients <==> |s.clients| < MAX_TOTAL_CONNECTIONS && |At(s.clients, c.ip)| < MAX_CONN_PER_IP)
      && (c in r.clients ==> r.queues[c] == Chan([], false) && forall sub :: c !in SubscribersOf(r, sub))
      && (c !in r.clients ==> r.queues[c].closed && |r.queues[c].msgs| == 1 && r.queues[c].msgs[0].Error? && r.clients == s.clients)
  {
    CountsAt(s.clients, c.ip);
    assert c !in s.clients;
    forall sub ensures c !in SubscribersOf(s, sub) {}
    RegisterOutcome(s, c);
  }

  lemma RegisterOutcome(s: HubVal, c: Client)
    requires c !in s.queues && c !in s.clients && forall sub :: c !in SubscribersOf(s, sub)
    ensures var r := RegisterStep(s, c);
      && c in r.queues
      && (c in r.clients <==> |s.clients| < MAX_TOTAL_CONNECTIONS && Count(s.ipCount, c.ip) < MAX_CONN_PER_IP)
      && (c in r.clients ==> r.queues[c] == Chan([], false) && forall sub :: c !in SubscribersOf(r, sub))
      && (c !in r.clients ==> r.queues[c].closed && |r.queues[c].msgs| == 1 && r.queues[c].msgs[0].Error? && r.clients == s.clients)
  {
    var r := RegisterStep(s, c);
    forall sub ensures c !in SubscribersOf(r, sub) {
      assert c !in SubscribersOf(s, sub);
    }
  }

  /** A subscription is made exactly when the client is one and has room for it, and
      it concerns that client and that subscription only. */
  lemma SubscribedExactly(s: HubVal, c: Client, sub: Subscription, d: Client, x: Subscription)
    requires Inv(s)
    ensures var r := SubscribeStep(s, c, sub);
      d in SubscribersOf(r, x) <==>
        d in SubscribersOf(s, x) || (d == c && x == sub && c in s.clients && |s.clientSubs[c]| < MAX_SUBS_PER_CLIENT)
  {
    assert c in SubscribersOf(s, sub) <==> c in s.clients && sub in s.clientSubs[c];
  }

  /** An unsubscribe takes away that subscription of that client and nothing else. */
  lemma UnsubscribedExactly(s: HubVal, c: Client, sub: Subscription, d: Client, x: Subscription)
    requires Inv(s)
    ensures d in SubscribersOf(UnsubscribeStep(s, c, sub), x) <==> d in SubscribersOf(s, x) && !(d == c && x == sub)
  {
    assert c in SubscribersOf(s, sub) <==> c in s.clients && sub in s.clientSubs[c];
  }
}
