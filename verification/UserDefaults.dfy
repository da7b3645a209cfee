// What the normalisation of the user model promises: a second one changes nothing, and what the
// user has set stays, as far as it does.
module UserDefaults {
  import opened Wrappers
  import opened UserModel

  // ----- Idempotence -----

  lemma TransactionsTwice(m: Transactions)
    ensures NormalTransactions(NormalTransactions(m)) == NormalTransactions(m)
  {
    if m.defaults.Some? { EachTwice(FillResource(m.defaults.value), m.resources); }
  }

  lemma InboundGroupTwice(d: InboundDefault, g: InboundGroup)
    ensures FillInboundGroup(d)(FillInboundGroup(d)(g)) == FillInboundGroup(d)(g)
  {
    EachTwice(FillInboundConnection(if d.connection.Some? then d.connection.value.discovery else None), g.connections);
  }

  lemma InboundTwice(m: Inbound)
    ensures NormalInbound(NormalInbound(m)) == NormalInbound(m)
    ensures InboundValid(m) ==> InboundValid(NormalInbound(m))
  {
    var d := InboundDefaults(m);
    forall i | 0 <= i < |m.groups|
      ensures FillInboundGroup(d)(FillInboundGroup(d)(m.groups[i])) == FillInboundGroup(d)(m.groups[i])
    {
      InboundGroupTwice(d, m.groups[i]);
    }
    EachTwice(FillInboundGroup(d), m.groups);
  }

  lemma GatesTwice(m: Gates)
    ensures NormalGates(NormalGates(m)) == NormalGates(m)
    ensures GatesValid(m) ==> GatesValid(NormalGates(m))
  {
    if m.inbound.Some? { InboundTwice(m.inbound.value); }
  }

  lemma LimitTwice(d: Limit, l: Limit)
    ensures FillLimit(d)(FillLimit(d)(l)) == FillLimit(d)(l) && FillLimit(d)(d) == d
  {
  }

  lemma ListenersTwice(d: Limit, s: seq<Listener>)
    ensures Each(FillListener(d), Each(FillListener(d), s)) == Each(FillListener(d), s)
  {
    forall i | 0 <= i < |s| ensures FillListener(d)(FillListener(d)(s[i])) == FillListener(d)(s[i]) {
      LimitTwice(d, if s[i].limit.Some? then s[i].limit.value else d);
    }
    EachTwice(FillListener(d), s);
  }

  lemma GatewayTwice(m: Gateway)
    ensures NormalGateway(NormalGateway(m)) == NormalGateway(m)
    ensures GatewayValid(m) ==> GatewayValid(NormalGateway(m))
  {
    GatesTwice(m.regular);
    if m.reverse.Some? { GatesTwice(m.reverse.value); }
    if m.defaults.Some? {
      var d := m.defaults.value;
      if d.listenerLimit.Some? && m.listeners.Some? { ListenersTwice(d.listenerLimit.value, m.listeners.value); }
      if d.connection.Some? && m.connections.Some? { EachTwice(FillPeer(d.connection.value), m.connections.value); }
    }
  }

  lemma QueueGroupTwice(d: Option<QueueDefault>, g: QueueGroup)
    ensures FillQueueGroup(d)(FillQueueGroup(d)(g)) == FillQueueGroup(d)(g)
  {
    EachTwice(FillQueue(d), g.queues);
  }

  lemma ForwardGroupTwice(d: ForwardDefaults, g: ForwardGroup)
    ensures FillForwardGroup(d)(FillForwardGroup(d)(g)) == FillForwardGroup(d)(g)
  {
    if d.service.Some? && g.services.Some? { EachTwice(FillServiceForward(d.service.value), g.services.value); }
    if d.queue.Some? && g.queues.Some? { EachTwice(FillQueueForward(d.queue.value), g.queues.value); }
  }

  lemma ForwardTwice(m: Forward)
    ensures NormalForward(NormalForward(m)) == NormalForward(m)
  {
    if m.defaults.Some? && m.groups.Some? {
      forall i | 0 <= i < |m.groups.value|
        ensures var f := FillForwardGroup(m.defaults.value); f(f(m.groups.value[i])) == f(m.groups.value[i])
      {
        ForwardGroupTwice(m.defaults.value, m.groups.value[i]);
      }
      EachTwice(FillForwardGroup(m.defaults.value), m.groups.value);
    }
  }

  lemma QueuesTwice(m: Queues)
    ensures NormalQueues(NormalQueues(m)) == NormalQueues(m)
    ensures QueuesValid(m) ==> QueuesValid(NormalQueues(m))
  {
    var n := NormalQueues(m);
    var d := if n.defaults.Some? then n.defaults.value.queue else None;
    if m.groups.Some? {
      var groups := m.groups.value;
      forall i | 0 <= i < |groups|
        ensures FillQueueGroup(d)(FillQueueGroup(d)(groups[i])) == FillQueueGroup(d)(groups[i])
      {
        QueueGroupTwice(d, groups[i]);
      }
      EachTwice(FillQueueGroup(d), groups);
    }
    if m.forward.Some? { ForwardTwice(m.forward.value); }
  }

  lemma EntitiesTwice(es: Option<seq<Entity>>, d: Option<EntityDefault>,
                      placeholder: nat -> string, again: nat -> string)
    requires forall i :: placeholder(i) != ""
    ensures NormalEntities(NormalEntities(es, d, placeholder), d, again) == NormalEntities(es, d, placeholder)
  {
    if es.Some? {
      var once := NormalEntities(es, d, placeholder).value;
      assert Aliased(once, again) == once;
      if d.Some? { assert Each(FillEntity(d.value), once) == once; }
    }
  }

  lemma ServicesTwice(d: ServiceDefault, services: seq<Service>)
    ensures Each(FillService(d), Each(FillService(d), services)) == Each(FillService(d), services)
  {
    EachTwice(FillService(d), services);
  }

  // A model that has been normalised is not changed by being normalised again, whatever the
  // placeholders are.
  lemma NormalizedTwice(m: Domain, servers: nat -> string, executables: nat -> string,
                        servers': nat -> string, executables': nat -> string)
    requires (forall i :: servers(i) != "") && (forall i :: executables(i) != "")
    requires DomainValid(m)
    ensures var once := NormalDomain(m, servers, executables);
            Normalized(once, servers', executables') == Ok(once)
  {
    var d := if m.defaults.Some? then m.defaults.value else Defaults(None, None, None, None);
    EntitiesTwice(m.servers, d.server, servers, servers');
    EntitiesTwice(m.executables, d.executable, executables, executables');
    if m.transaction.Some? { TransactionsTwice(m.transaction.value); }
    if m.gateway.Some? { GatewayTwice(m.gateway.value); }
    if m.queue.Some? { QueuesTwice(m.queue.value); }
    if d.service.Some? && m.services.Some? { ServicesTwice(d.service.value, m.services.value); }
  }

  // ----- When a model is refused -----

  // The regular gates, or the reverse ones.
  predicate IsGates(m: Domain, gates: Gates) {
    m.gateway.Some? && (gates == m.gateway.value.regular || Some(gates) == m.gateway.value.reverse)
  }

  ghost predicate InboundWithoutAddress(m: Domain) {
    exists gates, g, c :: IsGates(m, gates) && gates.inbound.Some? && g in gates.inbound.value.groups
                          && c in g.connections && c.address == ""
  }

  ghost predicate OutboundWithoutAddress(m: Domain) {
    exists gates, g, c :: IsGates(m, gates) && gates.outbound.Some? && g in gates.outbound.value.groups
                          && c in g.connections && c.address == ""
  }

  ghost predicate QueueWithoutName(m: Domain) {
    m.queue.Some? && m.queue.value.groups.Some?
    && exists g, q :: g in m.queue.value.groups.value && q in g.queues && q.name == ""
  }

  // Normalising fails if and only if a connection, regular or reverse, in or out, has no
  // address, or a queue has no name.
  lemma RefusedExactly(m: Domain, servers: nat -> string, executables: nat -> string)
    ensures Normalized(m, servers, executables).Err?
            <==> InboundWithoutAddress(m) || OutboundWithoutAddress(m) || QueueWithoutName(m)
  {
  }

  // ----- What the user has set stays, and the defaults fill the rest -----

  // A thing y that was x and has d for its default: what is set stays, the rest is the default.
  predicate Settled<T(==)>(x: Option<T>, d: Option<T>, y: Option<T>) {
    (x.Some? ==> y == x) && (x.None? ==> y == d)
  }

  predicate Both<T(!new)>(p: (T, T) -> bool, x: Option<T>, y: Option<T>) {
    (x.Some? <==> y.Some?) && (x.Some? && y.Some? ==> p(x.value, y.value))
  }

  predicate Pairwise<T(!new)>(p: (T, T) -> bool, s: seq<T>, t: seq<T>) {
    |s| == |t| && forall i :: 0 <= i < |s| ==> p(s[i], t[i])
  }

  predicate PairwiseInside<T(!new)>(p: (T, T) -> bool, x: Option<seq<T>>, y: Option<seq<T>>) {
    (x.Some? <==> y.Some?) && (x.Some? && y.Some? ==> Pairwise(p, x.value, y.value))
  }

  function ResourceKept(d: ResourceDefault): (Resource, Resource) -> bool {
    (x: Resource, y: Resource) =>
      && y.(key := x.key, instances := x.instances) == x
      && Settled(x.key, d.key, y.key) && Settled(x.instances, d.instances, y.instances)
  }

  predicate TransactionsKept(x: Transactions, y: Transactions) {
    && y.(resources := x.resources) == x
    && Pairwise(ResourceKept(if x.defaults.Some? then x.defaults.value else ResourceDefault(None, None)),
                x.resources, y.resources)
  }

  predicate LimitKept(x: Limit, d: Limit, y: Limit) {
    Settled(x.size, d.size, y.size) && Settled(x.messages, d.messages, y.messages)
  }

  function InboundConnectionKept(d: Option<bool>): (InboundConnection, InboundConnection) -> bool {
    (x: InboundConnection, y: InboundConnection) =>
      y.(discovery := x.discovery) == x && Settled(x.discovery, d, y.discovery)
  }

  // A limit is filled in part, but one that is missing altogether is not made up.
  function InboundGroupKept(d: InboundDefault): (InboundGroup, InboundGroup) -> bool {
    (x: InboundGroup, y: InboundGroup) =>
      var limit := if d.limit.Some? then d.limit.value else Limit(None, None);
      && y.(limit := x.limit, connections := x.connections) == x
      && (x.limit.Some? <==> y.limit.Some?)
      && (x.limit.Some? && y.limit.Some? ==> LimitKept(x.limit.value, limit, y.limit.value))
      && Pairwise(InboundConnectionKept(if d.connection.Some? then d.connection.value.discovery else None),
                  x.connections, y.connections)
  }

  predicate InboundKept(x: Inbound, y: Inbound) {
    && y.(groups := x.groups) == x
    && Pairwise(InboundGroupKept(if x.defaults.Some? then x.defaults.value else InboundDefault(None, None)),
                x.groups, y.groups)
  }

  predicate GatesKept(x: Gates, y: Gates) { y.outbound == x.outbound && Both(InboundKept, x.inbound, y.inbound) }

  // The limit of a listener, on the other hand, is made up.
  function ListenerKept(d: Limit): (Listener, Listener) -> bool {
    (x: Listener, y: Listener) =>
      && y.(limit := x.limit) == x && y.limit.Some?
      && LimitKept(if x.limit.Some? then x.limit.value else Limit(None, None), d, y.limit.value)
  }

  function PeerKept(d: PeerDefault): (Peer, Peer) -> bool {
    (x: Peer, y: Peer) =>
      && y.(address := x.address, restart := x.restart) == x && Settled(x.restart, Some(d.restart), y.restart)
      && (x.address != "" ==> y.address == x.address) && (x.address == "" ==> y.address == d.address)
  }

  predicate GatewayKept(x: Gateway, y: Gateway) {
    var d := if x.defaults.Some? then x.defaults.value else GatewayDefault(None, None);
    && y.defaults == x.defaults && GatesKept(x.regular, y.regular) && Both(GatesKept, x.reverse, y.reverse)
    && (if d.listenerLimit.None? then y.listeners == x.listeners
        else PairwiseInside(ListenerKept(d.listenerLimit.value), x.listeners, y.listeners))
    && (if d.connection.None? then y.connections == x.connections
        else PairwiseInside(PeerKept(d.connection.value), x.connections, y.connections))
  }

  // What is said of retries, the deprecated way or not.
  function CountOf(retry: Option<Retry>, retries: Option<int>): Option<int> {
    if retry.Some? && retry.value.count.Some? then retry.value.count else retries
  }

  function DelayOf(retry: Option<Retry>): Option<string> { if retry.Some? then retry.value.delay else None }

  // Count and delay are settled one by one.
  predicate RetryKept(x: Option<Retry>, retries: Option<int>, d: QueueDefault, y: Option<Retry>) {
    && Settled(CountOf(x, retries), CountOf(d.retry, d.retries), CountOf(y, None))
    && Settled(DelayOf(x), DelayOf(d.retry), DelayOf(y))
    && (y.Some? <==> x.Some? || retries.Some? || d.retry.Some? || d.retries.Some?)
  }

  function QueueKept(d: QueueDefault): (Queue, Queue) -> bool {
    (x: Queue, y: Queue) => y.(retry := x.retry) == x && RetryKept(x.retry, x.retries, d, y.retry)
  }

  function QueueGroupKept(d: QueueDefault): (QueueGroup, QueueGroup) -> bool {
    (x: QueueGroup, y: QueueGroup) =>
      && y.(alias := x.alias, queues := x.queues) == x && Settled(x.alias, x.name, y.alias)
      && Pairwise(QueueKept(d), x.queues, y.queues)
  }

  predicate QueueDefaultKept(x: QueueDefault, y: QueueDefault) {
    y.(retry := x.retry) == x && RetryKept(x.retry, x.retries, QueueDefault(None, None), y.retry)
  }

  predicate QueueDefaultsKept(x: QueueDefaults, y: QueueDefaults) {
    y.(queue := x.queue) == x && Both(QueueDefaultKept, x.queue, y.queue)
  }

  function ServiceForwardKept(d: ForwardDefault): (ServiceForward, ServiceForward) -> bool {
    (x: ServiceForward, y: ServiceForward) =>
      && y.(instances := x.instances, reply := x.reply) == x && Settled(x.instances, d.instances, y.instances)
      && (x.reply.Some? <==> y.reply.Some?)
      && (x.reply.Some? && y.reply.Some? ==>
            y.reply.value.queue == x.reply.value.queue && Settled(x.reply.value.delay, d.delay, y.reply.value.delay))
  }

  function QueueForwardKept(d: ForwardDefault): (QueueForward, QueueForward) -> bool {
    (x: QueueForward, y: QueueForward) =>
      && y.(instances := x.instances, target := x.target) == x && Settled(x.instances, d.instances, y.instances)
      && y.target.queue == x.target.queue && Settled(x.target.delay, d.delay, y.target.delay)
  }

  function ForwardGroupKept(d: ForwardDefaults): (ForwardGroup, ForwardGroup) -> bool {
    (x: ForwardGroup, y: ForwardGroup) =>
      var none := ForwardDefault(None, None);
      && y.(services := x.services, queues := x.queues) == x
      && PairwiseInside(ServiceForwardKept(if d.service.Some? then d.service.value else none), x.services, y.services)
      && PairwiseInside(QueueForwardKept(if d.queue.Some? then d.queue.value else none), x.queues, y.queues)
  }

  predicate ForwardKept(x: Forward, y: Forward) {
    && y.(groups := x.groups) == x
    && PairwiseInside(ForwardGroupKept(if x.defaults.Some? then x.defaults.value else ForwardDefaults(None, None)),
                      x.groups, y.groups)
  }

  function GivenQueueDefault(m: Queues): QueueDefault {
    if m.defaults.Some? && m.defaults.value.queue.Some? then m.defaults.value.queue.value else QueueDefault(None, None)
  }

  predicate QueuesKept(x: Queues, y: Queues) {
    && Both(QueueDefaultsKept, x.defaults, y.defaults)
    && PairwiseInside(QueueGroupKept(GivenQueueDefault(x)), x.groups, y.groups)
    && Both(ForwardKept, x.forward, y.forward)
  }

  // An alias that is set, be it to nothing, stays; any other is the placeholder.
  predicate EntityKept(x: Entity, d: Option<EntityDefault>, placeholder: string, y: Entity) {
    && y.(alias := x.alias, instances := x.instances, memberships := x.memberships,
          environment := x.environment, restart := x.restart) == x
    && Settled(x.alias, Some(placeholder), y.alias)
    && Settled(x.instances, if d.Some? then Some(d.value.instances) else None, y.instances)
    && Settled(x.memberships, if d.Some? then d.value.memberships else None, y.memberships)
    && Settled(x.environment, if d.Some? then d.value.environment else None, y.environment)
    && Settled(x.restart, if d.Some? then Some(d.value.restart) else None, y.restart)
  }

  predicate EntitiesKept(x: Option<seq<Entity>>, d: Option<EntityDefault>, placeholder: nat -> string,
                         y: Option<seq<Entity>>) {
    && (x.Some? <==> y.Some?)
    && (x.Some? && y.Some? ==>
          && |x.value| == |y.value|
          && forall i :: 0 <= i < |x.value| ==> EntityKept(x.value[i], d, placeholder(i), y.value[i]))
  }

  function TimeoutOf(e: Option<Execution>): Option<Timeout> { if e.Some? then e.value.timeout else None }

  function DurationOf(t: Option<Timeout>): Option<string> { if t.Some? then t.value.duration else None }

  function ContractOf(t: Option<Timeout>): Option<string> { if t.Some? then t.value.contract else None }

  function ServiceKept(d: ServiceDefault): (Service, Service) -> bool {
    (x: Service, y: Service) =>
      var own, default, now := TimeoutOf(x.execution), TimeoutOf(d.execution), TimeoutOf(y.execution);
      && x.name == y.name && Settled(x.timeout, d.timeout, y.timeout)
      && (y.execution.Some? <==> x.execution.Some? || d.execution.Some?)
      && (now.Some? <==> own.Some? || default.Some?)
      && Settled(DurationOf(own), DurationOf(default), DurationOf(now))
      && Settled(ContractOf(own), ContractOf(default), ContractOf(now))
  }

  // Everything the user has set in x is in y, and everything else in y is what the defaults of
  // x give for it; the defaults themselves stay too.
  predicate DomainKept(x: Domain, servers: nat -> string, executables: nat -> string, y: Domain) {
    && DefaultsKept(x, y)
    && EntitiesKept(x.servers, GivenDefaults(x).server, servers, y.servers)
    && EntitiesKept(x.executables, GivenDefaults(x).executable, executables, y.executables)
    && ManagersKept(x, y)
    && ServicesKept(x, y)
  }

  function GivenDefaults(m: Domain): Defaults {
    if m.defaults.Some? then m.defaults.value else Defaults(None, None, None, None)
  }

  predicate DefaultsKept(x: Domain, y: Domain) {
    y.defaults == x.defaults && Settled(x.environment, GivenDefaults(x).environment, y.environment)
  }

  predicate ManagersKept(x: Domain, y: Domain) {
    && Both(TransactionsKept, x.transaction, y.transaction)
    && Both(GatewayKept, x.gateway, y.gateway)
    && Both(QueuesKept, x.queue, y.queue)
  }

  predicate ServicesKept(x: Domain, y: Domain) {
    var d := GivenDefaults(x).service;
    PairwiseInside(ServiceKept(if d.Some? then d.value else ServiceDefault(None, None)), x.services, y.services)
  }

  // ----- When all this is so -----

  lemma EachKept<T(!new)>(p: (T, T) -> bool, f: T -> T, s: seq<T>)
    requires forall i :: 0 <= i < |s| ==> p(s[i], f(s[i]))
    ensures Pairwise(p, s, Each(f, s))
  {
  }

  lemma SameKept<T(!new)>(p: (T, T) -> bool, s: seq<T>)
    requires forall i :: 0 <= i < |s| ==> p(s[i], s[i])
    ensures Pairwise(p, s, s)
  {
  }

  lemma InboundIsKept(m: Inbound)
    ensures InboundKept(m, NormalInbound(m))
  {
    var d := InboundDefaults(m);
    var discovery := if d.connection.Some? then d.connection.value.discovery else None;
    forall i | 0 <= i < |m.groups| ensures InboundGroupKept(d)(m.groups[i], FillInboundGroup(d)(m.groups[i])) {
      EachKept(InboundConnectionKept(discovery), FillInboundConnection(discovery), m.groups[i].connections);
    }
    EachKept(InboundGroupKept(d), FillInboundGroup(d), m.groups);
  }

  lemma GatesAreKept(m: Gates)
    ensures GatesKept(m, NormalGates(m))
  {
    if m.inbound.Some? { InboundIsKept(m.inbound.value); }
  }

  lemma ListenersAreKept(d: Limit, s: seq<Listener>)
    ensures Pairwise(ListenerKept(d), s, Each(FillListener(d), s))
  {
    forall i | 0 <= i < |s| ensures ListenerKept(d)(s[i], FillListener(d)(s[i])) {
      if s[i].limit.Some? { assert FillListener(d)(s[i]).limit.value == FillLimit(d)(s[i].limit.value); }
    }
    EachKept(ListenerKept(d), FillListener(d), s);
  }

  lemma GatewayIsKept(m: Gateway)
    ensures GatewayKept(m, NormalGateway(m))
  {
    var d := if m.defaults.Some? then m.defaults.value else GatewayDefault(None, None);
    GatesAreKept(m.regular);
    if m.reverse.Some? { GatesAreKept(m.reverse.value); }
    if d.listenerLimit.Some? && m.listeners.Some? { ListenersAreKept(d.listenerLimit.value, m.listeners.value); }
    if d.connection.Some? && m.connections.Some? {
      EachKept(PeerKept(d.connection.value), FillPeer(d.connection.value), m.connections.value);
    }
  }

  lemma ResourceIsKept(r: Resource)
    ensures ResourceKept(ResourceDefault(None, None))(r, r)
  {
  }

  lemma TransactionsAreKept(m: Transactions)
    ensures TransactionsKept(m, NormalTransactions(m))
  {
    var none := ResourceDefault(None, None);
    if m.defaults.Some? {
      EachKept(ResourceKept(m.defaults.value), FillResource(m.defaults.value), m.resources);
    } else {
      forall i | 0 <= i < |m.resources| ensures ResourceKept(none)(m.resources[i], m.resources[i]) {
        ResourceIsKept(m.resources[i]);
      }
      SameKept(ResourceKept(none), m.resources);
    }
  }

  lemma ServiceForwardIsKept(f: ServiceForward)
    ensures ServiceForwardKept(ForwardDefault(None, None))(f, f)
  {
  }

  lemma QueueForwardIsKept(f: QueueForward)
    ensures QueueForwardKept(ForwardDefault(None, None))(f, f)
  {
  }

  lemma ForwardGroupIsKept(d: ForwardDefaults, g: ForwardGroup)
    ensures ForwardGroupKept(d)(g, FillForwardGroup(d)(g))
  {
    var none := ForwardDefault(None, None);
    if g.services.Some? {
      if d.service.Some? {
        EachKept(ServiceForwardKept(d.service.value), FillServiceForward(d.service.value), g.services.value);
      } else {
        forall i | 0 <= i < |g.services.value|
          ensures ServiceForwardKept(none)(g.services.value[i], g.services.value[i])
        {
          ServiceForwardIsKept(g.services.value[i]);
        }
        SameKept(ServiceForwardKept(none), g.services.value);
      }
    }
    if g.queues.Some? {
      if d.queue.Some? {
        EachKept(QueueForwardKept(d.queue.value), FillQueueForward(d.queue.value), g.queues.value);
      } else {
        forall i | 0 <= i < |g.queues.value|
          ensures QueueForwardKept(none)(g.queues.value[i], g.queues.value[i])
        {
          QueueForwardIsKept(g.queues.value[i]);
        }
        SameKept(QueueForwardKept(none), g.queues.value);
      }
    }
  }

  lemma ForwardIsKept(m: Forward)
    ensures ForwardKept(m, NormalForward(m))
  {
    var d := if m.defaults.Some? then m.defaults.value else ForwardDefaults(None, None);
    if m.groups.Some? {
      var groups := m.groups.value;
      forall i | 0 <= i < |groups|
        ensures ForwardGroupKept(d)(groups[i], FillForwardGroup(d)(groups[i]))
        ensures m.defaults.None? ==> FillForwardGroup(d)(groups[i]) == groups[i]
      {
        ForwardGroupIsKept(d, groups[i]);
      }
      EachKept(ForwardGroupKept(d), FillForwardGroup(d), groups);
      if m.defaults.None? { SameKept(ForwardGroupKept(d), groups); }
    }
  }

  lemma QueueIsKept(d: QueueDefault, q: Queue)
    ensures QueueKept(d)(q, FillQueue(Some(d.(retry := RetryFrom(d.retry, d.retries))))(q))
    ensures QueueKept(QueueDefault(None, None))(q, FillQueue(None)(q))
  {
  }

  // The name of a queue group stays if it has an alias, or no name to lose.
  predicate NameStays(g: QueueGroup) { g.alias.Some? || g.name in {None, Some("")} }

  lemma QueueGroupIsKept(m: Queues, g: QueueGroup)
    ensures var n := Inside(NormalQueueDefaults, m.defaults);
            QueueGroupKept(GivenQueueDefault(m))(g, FillQueueGroup(if n.Some? then n.value.queue else None)(g))
            <==> NameStays(g)
  {
    var n := Inside(NormalQueueDefaults, m.defaults);
    var d := if n.Some? then n.value.queue else None;
    forall i | 0 <= i < |g.queues| ensures QueueKept(GivenQueueDefault(m))(g.queues[i], FillQueue(d)(g.queues[i])) {
      QueueIsKept(GivenQueueDefault(m), g.queues[i]);
    }
    EachKept(QueueKept(GivenQueueDefault(m)), FillQueue(d), g.queues);
  }

  predicate NamesStay(m: Domain) {
    m.queue.Some? && m.queue.value.groups.Some? ==>
      forall i :: 0 <= i < |m.queue.value.groups.value| ==> NameStays(m.queue.value.groups.value[i])
  }

  lemma QueuesAreKept(m: Queues)
    ensures QueuesKept(m, NormalQueues(m))
            <==> (m.groups.Some? ==> forall i :: 0 <= i < |m.groups.value| ==> NameStays(m.groups.value[i]))
  {
    var n := NormalQueues(m);
    var d := if n.defaults.Some? then n.defaults.value.queue else None;
    if m.groups.Some? {
      forall i | 0 <= i < |m.groups.value|
        ensures QueueGroupKept(GivenQueueDefault(m))(m.groups.value[i], n.groups.value[i])
                <==> NameStays(m.groups.value[i])
      {
        QueueGroupIsKept(m, m.groups.value[i]);
        assert n.groups.value[i] == FillQueueGroup(d)(m.groups.value[i]);
      }
    }
    if m.forward.Some? { ForwardIsKept(m.forward.value); }
  }

  // A deprecated default environment stays if it is not needed, or holds nothing.
  predicate EnvironmentStays(m: Domain) {
    m.environment.None? && m.defaults.Some? && m.defaults.value.environment.Some? ==>
      var e := m.defaults.value.environment.value;
      e.files in {None, Some([])} && e.variables in {None, Some([])}
  }

  predicate AliasesStay(es: Option<seq<Entity>>) {
    es.Some? ==> forall i :: 0 <= i < |es.value| ==> es.value[i].alias != Some("")
  }

  lemma EntitiesAreKept(es: Option<seq<Entity>>, d: Option<EntityDefault>, placeholder: nat -> string)
    requires forall i :: placeholder(i) != ""
    ensures EntitiesKept(es, d, placeholder, NormalEntities(es, d, placeholder)) <==> AliasesStay(es)
  {
    if es.Some? {
      var n := NormalEntities(es, d, placeholder).value;
      forall i | 0 <= i < |n|
        ensures EntityKept(es.value[i], d, placeholder(i), n[i]) <==> es.value[i].alias != Some("")
      {
        assert n[i].alias == Aliased(es.value, placeholder)[i].alias;
      }
    }
  }

  lemma ServiceIsKept(s: Service)
    ensures ServiceKept(ServiceDefault(None, None))(s, s)
  {
  }

  lemma ServicesAreKept(d: Option<ServiceDefault>, s: Option<seq<Service>>)
    ensures PairwiseInside(ServiceKept(if d.Some? then d.value else ServiceDefault(None, None)), s,
                           if d.Some? then EachInside(FillService(d.value), s) else s)
  {
    if s.Some? {
      if d.Some? {
        EachKept(ServiceKept(d.value), FillService(d.value), s.value);
      } else {
        forall i | 0 <= i < |s.value| ensures ServiceKept(ServiceDefault(None, None))(s.value[i], s.value[i]) {
          ServiceIsKept(s.value[i]);
        }
        SameKept(ServiceKept(ServiceDefault(None, None)), s.value);
      }
    }
  }

  // A model that normalises keeps all that the user has set, and takes the rest from its
  // defaults, if and only if no queue group has a name without an alias, no default
  // environment is needed, and no alias is set to nothing.
  lemma KeptExactly(m: Domain, servers: nat -> string, executables: nat -> string)
    requires (forall i :: servers(i) != "") && (forall i :: executables(i) != "")
    requires DomainValid(m)
    ensures DomainKept(m, servers, executables, Normalized(m, servers, executables).value)
            <==> NamesStay(m) && EnvironmentStays(m) && AliasesStay(m.servers) && AliasesStay(m.executables)
  {
    var d, n := GivenDefaults(m), NormalDomain(m, servers, executables);
    EntitiesAreKept(m.servers, d.server, servers);
    EntitiesAreKept(m.executables, d.executable, executables);
    ManagersAreKept(m, n);
    ServicesAreKept(d.service, m.services);
    DefaultsAreKept(m, n);
  }

  lemma ManagersAreKept(m: Domain, n: Domain)
    requires n.transaction == Inside(NormalTransactions, m.transaction)
    requires n.gateway == Inside(NormalGateway, m.gateway) && n.queue == Inside(NormalQueues, m.queue)
    ensures ManagersKept(m, n) <==> NamesStay(m)
  {
    if m.transaction.Some? { TransactionsAreKept(m.transaction.value); }
    if m.gateway.Some? { GatewayIsKept(m.gateway.value); }
    if m.queue.Some? { QueuesAreKept(m.queue.value); }
  }

  lemma DefaultsAreKept(m: Domain, n: Domain)
    requires n.environment == Or(m.environment, GivenDefaults(m).environment)
    requires var d := GivenDefaults(m);
             n.defaults == if m.defaults.Some? && m.environment.None? && d.environment.Some?
                           then Some(d.(environment := Some(Emptied(d.environment.value)))) else m.defaults
    ensures DefaultsKept(m, n) <==> EnvironmentStays(m)
  {
  }

  // ----- What is lost, and nothing else -----

  // The model y with the names of the queue groups that x has.
  function NamesBack(x: Queues, y: Queues): Queues {
    if x.groups.None? || y.groups.None? || |x.groups.value| != |y.groups.value| then y
    else
      var groups := y.groups.value;
      y.(groups := Some(seq(|groups|, i requires 0 <= i < |groups| => groups[i].(name := x.groups.value[i].name))))
  }

  // The entities y with the aliases that are set to nothing in x.
  function AliasesBack(x: Option<seq<Entity>>, y: Option<seq<Entity>>): Option<seq<Entity>> {
    if x.None? || y.None? || |x.value| != |y.value| then y
    else
      Some(seq(|y.value|, i requires 0 <= i < |y.value| =>
               if x.value[i].alias == Some("") then y.value[i].(alias := Some("")) else y.value[i]))
  }

  // The model y with all that is lost of x put back.
  function Restored(x: Domain, y: Domain): Domain {
    y.(defaults := x.defaults, servers := AliasesBack(x.servers, y.servers),
       executables := AliasesBack(x.executables, y.executables),
       queue := if x.queue.Some? && y.queue.Some? then Some(NamesBack(x.queue.value, y.queue.value)) else y.queue)
  }

  // A name that becomes the alias leaves an empty one.
  predicate NamesLost(x: Queues, y: Queues) {
    && (x.groups.Some? <==> y.groups.Some?)
    && (x.groups.Some? && y.groups.Some? ==>
          && |x.groups.value| == |y.groups.value|
          && forall i :: 0 <= i < |x.groups.value| ==>
               var g := x.groups.value[i];
               y.groups.value[i].name == if g.alias.None? && g.name.Some? then Some("") else g.name)
  }

  // An alias that is set to nothing becomes the placeholder.
  predicate AliasesLost(x: Option<seq<Entity>>, placeholder: nat -> string, y: Option<seq<Entity>>) {
    && (x.Some? <==> y.Some?)
    && (x.Some? && y.Some? ==>
          && |x.value| == |y.value|
          && forall i :: 0 <= i < |x.value| && x.value[i].alias == Some("") ==>
               y.value[i].alias == Some(placeholder(i)))
  }

  // A default environment that is needed leaves one with nothing in it, but with what is
  // there at all still there.
  predicate EnvironmentLost(x: Domain, y: Domain) {
    if x.environment.None? && x.defaults.Some? && x.defaults.value.environment.Some? then
      var e := x.defaults.value.environment.value;
      && y.defaults.Some? && y.defaults.value.environment.Some?
      && y.defaults.value.(environment := Some(e)) == x.defaults.value
      && var left := y.defaults.value.environment.value;
         && left.files == (if e.files.None? then None else Some([]))
         && left.variables == (if e.variables.None? then None else Some([]))
    else y.defaults == x.defaults
  }

  lemma QueueGroupBack(m: Queues, g: QueueGroup)
    ensures var n := Inside(NormalQueueDefaults, m.defaults);
            var filled := FillQueueGroup(if n.Some? then n.value.queue else None)(g);
            && QueueGroupKept(GivenQueueDefault(m))(g, filled.(name := g.name))
            && filled.name == if g.alias.None? && g.name.Some? then Some("") else g.name
  {
    var n := Inside(NormalQueueDefaults, m.defaults);
    var d := if n.Some? then n.value.queue else None;
    forall i | 0 <= i < |g.queues| ensures QueueKept(GivenQueueDefault(m))(g.queues[i], FillQueue(d)(g.queues[i])) {
      QueueIsKept(GivenQueueDefault(m), g.queues[i]);
    }
    EachKept(QueueKept(GivenQueueDefault(m)), FillQueue(d), g.queues);
  }

  lemma QueuesBack(m: Queues)
    ensures QueuesKept(m, NamesBack(m, NormalQueues(m))) && NamesLost(m, NormalQueues(m))
  {
    var n := NormalQueues(m);
    var d := if n.defaults.Some? then n.defaults.value.queue else None;
    if m.groups.Some? {
      forall i | 0 <= i < |m.groups.value|
        ensures QueueGroupKept(GivenQueueDefault(m))(m.groups.value[i], NamesBack(m, n).groups.value[i])
        ensures var g := m.groups.value[i];
                n.groups.value[i].name == if g.alias.None? && g.name.Some? then Some("") else g.name
      {
        QueueGroupBack(m, m.groups.value[i]);
        assert n.groups.value[i] == FillQueueGroup(d)(m.groups.value[i]);
      }
    }
    if m.forward.Some? { ForwardIsKept(m.forward.value); }
  }

  lemma EntitiesBack(es: Option<seq<Entity>>, d: Option<EntityDefault>, placeholder: nat -> string)
    ensures EntitiesKept(es, d, placeholder, AliasesBack(es, NormalEntities(es, d, placeholder)))
    ensures AliasesLost(es, placeholder, NormalEntities(es, d, placeholder))
  {
    if es.Some? {
      var n := NormalEntities(es, d, placeholder);
      var back := AliasesBack(es, n);
      forall i | 0 <= i < |es.value|
        ensures EntityKept(es.value[i], d, placeholder(i), back.value[i])
        ensures es.value[i].alias == Some("") ==> n.value[i].alias == Some(placeholder(i))
      {
        assert n.value[i].alias == Aliased(es.value, placeholder)[i].alias;
      }
    }
  }

  // Every model that normalises keeps all that the user has set, and takes the rest from its
  // defaults, but for the names, the default environment and the aliases that are lost; and
  // this is what becomes of those.
  lemma LostOnly(m: Domain, servers: nat -> string, executables: nat -> string)
    requires DomainValid(m)
    ensures var n := Normalized(m, servers, executables).value;
            && DomainKept(m, servers, executables, Restored(m, n))
            && EnvironmentLost(m, n)
            && AliasesLost(m.servers, servers, n.servers) && AliasesLost(m.executables, executables, n.executables)
            && Both(NamesLost, m.queue, n.queue)
  {
    var d, n := GivenDefaults(m), NormalDomain(m, servers, executables);
    EntitiesBack(m.servers, d.server, servers);
    EntitiesBack(m.executables, d.executable, executables);
    ServicesAreKept(d.service, m.services);
    ManagersBack(m, n, Restored(m, n));
  }

  lemma ManagersBack(m: Domain, n: Domain, back: Domain)
    requires n.transaction == Inside(NormalTransactions, m.transaction)
    requires n.gateway == Inside(NormalGateway, m.gateway) && n.queue == Inside(NormalQueues, m.queue)
    requires back.transaction == n.transaction && back.gateway == n.gateway && back.queue == Restored(m, n).queue
    ensures ManagersKept(m, back) && Both(NamesLost, m.queue, n.queue)
  {
    if m.transaction.Some? { TransactionsAreKept(m.transaction.value); }
    if m.gateway.Some? { GatewayIsKept(m.gateway.value); }
    if m.queue.Some? { QueuesBack(m.queue.value); }
  }

  // The deprecated name goes to the alias and an empty one stays behind.
  lemma NameIsLost(placeholder: nat -> string)
    ensures var g := QueueGroup(None, None, None, [], Some("a"));
            var m := Domain(None, None, None, None, None, None, None, Some(Queues(None, Some([g]), None)));
            Normalized(m, placeholder, placeholder)
            == Ok(m.(queue := Some(Queues(None, Some([g.(alias := Some("a"), name := Some(""))]), None))))
  {
    var g := QueueGroup(None, None, None, [], Some("a"));
    assert Each(FillQueue(None), []) == [];
    assert Each(FillQueueGroup(None), [g]) == [g.(alias := Some("a"), name := Some(""))];
  }

  // The default environment goes to the environment and an empty one stays behind.
  lemma DefaultEnvironmentIsLost(placeholder: nat -> string)
    ensures var e := Environment(Some(["a"]), None);
            var m := Domain(Some(Defaults(None, None, None, Some(e))), None, None, None, None, None, None, None);
            Normalized(m, placeholder, placeholder)
            == Ok(m.(environment := Some(e),
                     defaults := Some(Defaults(None, None, None, Some(Environment(Some([]), None))))))
  {
  }

  // An alias that is set to nothing is replaced.
  lemma EmptyAliasIsLost(placeholder: nat -> string)
    ensures var e := Entity("a", Some(""), None, None, None, None, None);
            var m := Domain(None, None, None, Some([e]), None, None, None, None);
            Normalized(m, placeholder, placeholder)
            == Ok(m.(servers := Some([e.(alias := Some(placeholder(0)))])))
  {
    var e := Entity("a", Some(""), None, None, None, None, None);
    assert Aliased([e], placeholder) == [e.(alias := Some(placeholder(0)))];
  }

  // ----- There is only one way to keep it all -----

  lemma PairwiseOnce<T(!new)>(p: (T, T) -> bool, s: seq<T>, t: seq<T>, u: seq<T>)
    requires Pairwise(p, s, t) && Pairwise(p, s, u)
    requires forall i :: 0 <= i < |s| ==> p(s[i], t[i]) && p(s[i], u[i]) ==> t[i] == u[i]
    ensures t == u
  {
  }

  lemma InboundOnce(x: Inbound, y: Inbound, z: Inbound)
    requires InboundKept(x, y) && InboundKept(x, z)
    ensures y == z
  {
    var d := InboundDefaults(x);
    forall i | 0 <= i < |x.groups| ensures y.groups[i] == z.groups[i] {
      InboundGroupOnce(d, x.groups[i], y.groups[i], z.groups[i]);
    }
    PairwiseOnce(InboundGroupKept(d), x.groups, y.groups, z.groups);
  }

  lemma InboundGroupOnce(d: InboundDefault, x: InboundGroup, y: InboundGroup, z: InboundGroup)
    requires InboundGroupKept(d)(x, y) && InboundGroupKept(d)(x, z)
    ensures y == z
  {
    var discovery := if d.connection.Some? then d.connection.value.discovery else None;
    PairwiseOnce(InboundConnectionKept(discovery), x.connections, y.connections, z.connections);
  }

  lemma GatewayOnce(x: Gateway, y: Gateway, z: Gateway)
    requires GatewayKept(x, y) && GatewayKept(x, z)
    ensures y == z
  {
    var d := if x.defaults.Some? then x.defaults.value else GatewayDefault(None, None);
    GatesOnce(x.regular, y.regular, z.regular);
    if x.reverse.Some? { GatesOnce(x.reverse.value, y.reverse.value, z.reverse.value); }
    if d.listenerLimit.Some? && x.listeners.Some? {
      PairwiseOnce(ListenerKept(d.listenerLimit.value), x.listeners.value, y.listeners.value, z.listeners.value);
    }
    if d.connection.Some? && x.connections.Some? {
      PairwiseOnce(PeerKept(d.connection.value), x.connections.value, y.connections.value, z.connections.value);
    }
  }

  lemma GatesOnce(x: Gates, y: Gates, z: Gates)
    requires GatesKept(x, y) && GatesKept(x, z)
    ensures y == z
  {
    if x.inbound.Some? { InboundOnce(x.inbound.value, y.inbound.value, z.inbound.value); }
  }

  lemma QueueGroupOnce(d: QueueDefault, x: QueueGroup, y: QueueGroup, z: QueueGroup)
    requires QueueGroupKept(d)(x, y) && QueueGroupKept(d)(x, z)
    ensures y == z
  {
    PairwiseOnce(QueueKept(d), x.queues, y.queues, z.queues);
  }

  lemma ForwardGroupOnce(d: ForwardDefaults, x: ForwardGroup, y: ForwardGroup, z: ForwardGroup)
    requires ForwardGroupKept(d)(x, y) && ForwardGroupKept(d)(x, z)
    ensures y == z
  {
    var none := ForwardDefault(None, None);
    if x.services.Some? {
      PairwiseOnce(ServiceForwardKept(if d.service.Some? then d.service.value else none),
                   x.services.value, y.services.value, z.services.value);
    }
    if x.queues.Some? {
      PairwiseOnce(QueueForwardKept(if d.queue.Some? then d.queue.value else none),
                   x.queues.value, y.queues.value, z.queues.value);
    }
  }

  lemma ForwardOnce(x: Forward, y: Forward, z: Forward)
    requires ForwardKept(x, y) && ForwardKept(x, z)
    ensures y == z
  {
    var d := if x.defaults.Some? then x.defaults.value else ForwardDefaults(None, None);
    if x.groups.Some? {
      forall i | 0 <= i < |x.groups.value| ensures y.groups.value[i] == z.groups.value[i] {
        ForwardGroupOnce(d, x.groups.value[i], y.groups.value[i], z.groups.value[i]);
      }
      PairwiseOnce(ForwardGroupKept(d), x.groups.value, y.groups.value, z.groups.value);
    }
  }

  lemma QueuesOnce(x: Queues, y: Queues, z: Queues)
    requires QueuesKept(x, y) && QueuesKept(x, z)
    ensures y == z
  {
    if x.forward.Some? { ForwardOnce(x.forward.value, y.forward.value, z.forward.value); }
    if x.groups.Some? {
      forall i | 0 <= i < |x.groups.value| ensures y.groups.value[i] == z.groups.value[i] {
        QueueGroupOnce(GivenQueueDefault(x), x.groups.value[i], y.groups.value[i], z.groups.value[i]);
      }
      PairwiseOnce(QueueGroupKept(GivenQueueDefault(x)), x.groups.value, y.groups.value, z.groups.value);
    }
  }

  lemma EntitiesOnce(x: Option<seq<Entity>>, d: Option<EntityDefault>, placeholder: nat -> string,
                     y: Option<seq<Entity>>, z: Option<seq<Entity>>)
    requires EntitiesKept(x, d, placeholder, y) && EntitiesKept(x, d, placeholder, z)
    ensures y == z
  {
    if x.Some? {
      forall i | 0 <= i < |x.value| ensures y.value[i] == z.value[i] {
        assert EntityKept(x.value[i], d, placeholder(i), y.value[i]);
        assert EntityKept(x.value[i], d, placeholder(i), z.value[i]);
      }
      assert y.value == z.value;
    }
  }

  // What the user has set and the defaults leave no choice: there is at most one model that
  // keeps it all, so where the normalised model does, it is that one.
  lemma KeptOnce(x: Domain, servers: nat -> string, executables: nat -> string, y: Domain, z: Domain)
    requires DomainKept(x, servers, executables, y) && DomainKept(x, servers, executables, z)
    ensures y == z
  {
    var d := GivenDefaults(x);
    EntitiesOnce(x.servers, d.server, servers, y.servers, z.servers);
    EntitiesOnce(x.executables, d.executable, executables, y.executables, z.executables);
    ManagersOnce(x, y, z);
    if x.services.Some? {
      PairwiseOnce(ServiceKept(if d.service.Some? then d.service.value else ServiceDefault(None, None)),
                   x.services.value, y.services.value, z.services.value);
    }
  }

  lemma ManagersOnce(x: Domain, y: Domain, z: Domain)
    requires ManagersKept(x, y) && ManagersKept(x, z)
    ensures y.transaction == z.transaction && y.gateway == z.gateway && y.queue == z.queue
  {
    if x.transaction.Some? {
      TransactionsOnce(x.transaction.value, y.transaction.value, z.transaction.value);
    }
    if x.gateway.Some? { GatewayOnce(x.gateway.value, y.gateway.value, z.gateway.value); }
    if x.queue.Some? { QueuesOnce(x.queue.value, y.queue.value, z.queue.value); }
  }

  lemma TransactionsOnce(x: Transactions, y: Transactions, z: Transactions)
    requires TransactionsKept(x, y) && TransactionsKept(x, z)
    ensures y == z
  {
    PairwiseOnce(ResourceKept(if x.defaults.Some? then x.defaults.value else ResourceDefault(None, None)),
                 x.resources, y.resources, z.resources);
  }
}
