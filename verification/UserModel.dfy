// The model a user writes, in which most things may be left out, and its normalisation, which
// fills in from the defaults that the model itself gives.
module UserModel {
  import opened Wrappers

  datatype Error = InvalidConfiguration

  // ----- The model -----

  datatype ResourceDefault = ResourceDefault(key: Option<string>, instances: Option<int>)
  datatype Resource = Resource(name: string, key: Option<string>, instances: Option<int>, note: Option<string>,
                               openinfo: Option<string>, closeinfo: Option<string>)
  datatype Transactions = Transactions(defaults: Option<ResourceDefault>, log: string, resources: seq<Resource>)

  datatype Limit = Limit(size: Option<int>, messages: Option<int>)
  datatype Exclude = Exclude(services: Option<seq<string>>, queues: Option<seq<string>>)
  datatype InboundConnection = InboundConnection(address: string, discovery: Option<bool>, excluded: Option<Exclude>,
                                                 note: Option<string>)
  datatype InboundGroup = InboundGroup(alias: Option<string>, limit: Option<Limit>,
                                       connections: seq<InboundConnection>, note: Option<string>)
  datatype ConnectionDefault = ConnectionDefault(discovery: Option<bool>, excluded: Option<Exclude>)
  datatype InboundDefault = InboundDefault(limit: Option<Limit>, connection: Option<ConnectionDefault>)
  datatype Inbound = Inbound(defaults: Option<InboundDefault>, groups: seq<InboundGroup>)
  datatype OutboundConnection = OutboundConnection(address: string, services: Option<seq<string>>,
                                                   queues: Option<seq<string>>, note: Option<string>)
  datatype OutboundGroup = OutboundGroup(alias: Option<string>, note: Option<string>,
                                         connections: seq<OutboundConnection>)
  datatype Outbound = Outbound(groups: seq<OutboundGroup>)
  datatype Gates = Gates(inbound: Option<Inbound>, outbound: Option<Outbound>)
  // Listeners and connections of the gateway itself, and their defaults, are deprecated.
  datatype Listener = Listener(note: Option<string>, address: string, limit: Option<Limit>)
  datatype Peer = Peer(note: Option<string>, address: string, services: Option<seq<string>>,
                       queues: Option<seq<string>>, restart: Option<bool>)
  datatype PeerDefault = PeerDefault(restart: bool, address: string)
  datatype GatewayDefault = GatewayDefault(listenerLimit: Option<Limit>, connection: Option<PeerDefault>)
  datatype Gateway = Gateway(defaults: Option<GatewayDefault>, regular: Gates, reverse: Option<Gates>,
                             listeners: Option<seq<Listener>>, connections: Option<seq<Peer>>)

  datatype Retry = Retry(count: Option<int>, delay: Option<string>)
  datatype QueueDefault = QueueDefault(retry: Option<Retry>, retries: Option<int>)
  datatype Queue = Queue(name: string, retry: Option<Retry>, note: Option<string>, retries: Option<int>)
  datatype QueueGroup = QueueGroup(alias: Option<string>, queuebase: Option<string>, note: Option<string>,
                                   queues: seq<Queue>, name: Option<string>)
  datatype Reply = Reply(queue: string, delay: Option<string>)
  datatype ServiceForward = ServiceForward(alias: Option<string>, source: string, instances: Option<int>,
                                           service: string, reply: Option<Reply>)
  datatype QueueForward = QueueForward(alias: Option<string>, source: string, instances: Option<int>, target: Reply)
  datatype ForwardGroup = ForwardGroup(alias: Option<string>, services: Option<seq<ServiceForward>>,
                                       queues: Option<seq<QueueForward>>, note: Option<string>)
  // The defaults of a forward: how many instances, and the delay of what it sends.
  datatype ForwardDefault = ForwardDefault(instances: Option<int>, delay: Option<string>)
  datatype ForwardDefaults = ForwardDefaults(service: Option<ForwardDefault>, queue: Option<ForwardDefault>)
  datatype Forward = Forward(defaults: Option<ForwardDefaults>, groups: Option<seq<ForwardGroup>>)
  datatype QueueDefaults = QueueDefaults(queue: Option<QueueDefault>, directory: Option<string>)
  datatype Queues = Queues(defaults: Option<QueueDefaults>, groups: Option<seq<QueueGroup>>, forward: Option<Forward>)

  datatype Environment = Environment(files: Option<seq<string>>, variables: Option<seq<(string, string)>>)
  datatype Entity = Entity(path: string, alias: Option<string>, arguments: Option<seq<string>>, instances: Option<int>,
                           memberships: Option<seq<string>>, environment: Option<Environment>, restart: Option<bool>)
  datatype EntityDefault = EntityDefault(instances: int, memberships: Option<seq<string>>,
                                         environment: Option<Environment>, restart: bool)
  datatype Timeout = Timeout(duration: Option<string>, contract: Option<string>)
  datatype Execution = Execution(timeout: Option<Timeout>)
  datatype Service = Service(name: string, timeout: Option<string>, execution: Option<Execution>)
  datatype ServiceDefault = ServiceDefault(timeout: Option<string>, execution: Option<Execution>)
  datatype Defaults = Defaults(server: Option<EntityDefault>, executable: Option<EntityDefault>,
                               service: Option<ServiceDefault>, environment: Option<Environment>)
  datatype Domain = Domain(defaults: Option<Defaults>, environment: Option<Environment>,
                           transaction: Option<Transactions>, servers: Option<seq<Entity>>,
                           executables: Option<seq<Entity>>, services: Option<seq<Service>>,
                           gateway: Option<Gateway>, queue: Option<Queues>)

  // ----- Combining -----

  function Or<T>(x: Option<T>, y: Option<T>): Option<T> { if x.Some? then x else y }

  function Each<T>(f: T -> T, s: seq<T>): (r: seq<T>)
    ensures |r| == |s| && forall i :: 0 <= i < |s| ==> r[i] == f(s[i])
  {
    seq(|s|, i requires 0 <= i < |s| => f(s[i]))
  }

  function Inside<T>(f: T -> T, x: Option<T>): Option<T> { if x.Some? then Some(f(x.value)) else None }

  function EachInside<T>(f: T -> T, x: Option<seq<T>>): Option<seq<T>> {
    if x.Some? then Some(Each(f, x.value)) else None
  }

  method ForEach<T>(f: T -> T, s: seq<T>) returns (r: seq<T>)
    ensures r == Each(f, s)
  {
    r := s;
    for i := 0 to |s|
      invariant |r| == |s|
      invariant forall k :: 0 <= k < i ==> r[k] == f(s[k])
      invariant forall k :: i <= k < |s| ==> r[k] == s[k]
    {
      r := r[i := f(r[i])];
    }
  }

  lemma EachTwice<T>(f: T -> T, s: seq<T>)
    requires forall i :: 0 <= i < |s| ==> f(f(s[i])) == f(s[i])
    ensures Each(f, Each(f, s)) == Each(f, s)
  {
  }

  // ----- Transactions -----

  function FillResource(d: ResourceDefault): Resource -> Resource {
    (r: Resource) => r.(key := Or(r.key, d.key), instances := Or(r.instances, d.instances))
  }

  function NormalTransactions(m: Transactions): Transactions {
    if m.defaults.None? then m else m.(resources := Each(FillResource(m.defaults.value), m.resources))
  }

  // ----- Gateway -----

  function FillInboundConnection(d: Option<bool>): InboundConnection -> InboundConnection {
    (c: InboundConnection) => c.(discovery := Or(c.discovery, d))
  }

  function FillLimit(d: Limit): Limit -> Limit {
    (l: Limit) => Limit(Or(l.size, d.size), Or(l.messages, d.messages))
  }

  function FillInboundGroup(d: InboundDefault): InboundGroup -> InboundGroup {
    (g: InboundGroup) =>
      g.(connections := Each(FillInboundConnection(if d.connection.Some? then d.connection.value.discovery else None),
                             g.connections),
         limit := if d.limit.Some? then Inside(FillLimit(d.limit.value), g.limit) else g.limit)
  }

  // A connection without address has an empty one.
  function FillPeer(d: PeerDefault): Peer -> Peer {
    (p: Peer) =>
      p.(address := if p.address == "" then d.address else p.address, restart := Or(p.restart, Some(d.restart)))
  }

  function FillListener(d: Limit): Listener -> Listener {
    (l: Listener) => l.(limit := Some(if l.limit.None? then d else FillLimit(d)(l.limit.value)))
  }

  predicate InboundAddressed(s: seq<InboundConnection>) { forall i :: 0 <= i < |s| ==> s[i].address != "" }

  predicate InboundValid(m: Inbound) {
    forall i :: 0 <= i < |m.groups| ==> InboundAddressed(m.groups[i].connections)
  }

  predicate OutboundAddressed(s: seq<OutboundConnection>) { forall i :: 0 <= i < |s| ==> s[i].address != "" }

  predicate OutboundValid(m: Outbound) {
    forall i :: 0 <= i < |m.groups| ==> OutboundAddressed(m.groups[i].connections)
  }

  function InboundDefaults(m: Inbound): InboundDefault {
    if m.defaults.Some? then m.defaults.value else InboundDefault(None, None)
  }

  function NormalInbound(m: Inbound): Inbound { m.(groups := Each(FillInboundGroup(InboundDefaults(m)), m.groups)) }

  predicate GatesValid(m: Gates) {
    (m.inbound.Some? ==> InboundValid(m.inbound.value)) && (m.outbound.Some? ==> OutboundValid(m.outbound.value))
  }

  function NormalGates(m: Gates): Gates {
    if m.inbound.Some? then m.(inbound := Some(NormalInbound(m.inbound.value))) else m
  }

  predicate GatewayValid(m: Gateway) {
    GatesValid(m.regular) && (m.reverse.Some? ==> GatesValid(m.reverse.value))
  }

  function NormalGateway(m: Gateway): Gateway {
    var d := if m.defaults.Some? then m.defaults.value else GatewayDefault(None, None);
    Gateway(m.defaults, NormalGates(m.regular), Inside(NormalGates, m.reverse),
            if d.listenerLimit.Some? then EachInside(FillListener(d.listenerLimit.value), m.listeners) else m.listeners,
            if d.connection.Some? then EachInside(FillPeer(d.connection.value), m.connections) else m.connections)
  }

  // ----- Queues -----

  // The deprecated `retries` stands for the count of the retry.
  function RetryFrom(retry: Option<Retry>, retries: Option<int>): Option<Retry> {
    if retries.None? then retry
    else if retry.Some? then Some(retry.value.(count := Or(retry.value.count, retries)))
    else Some(Retry(retries, None))
  }

  function FillQueue(d: Option<QueueDefault>): Queue -> Queue {
    (q: Queue) =>
      var retry := RetryFrom(q.retry, q.retries);
      if d.None? then q.(retry := retry)
      else if retry.Some? && d.value.retry.Some? then
        q.(retry := Some(Retry(Or(retry.value.count, d.value.retry.value.count),
                               Or(retry.value.delay, d.value.retry.value.delay))))
      else q.(retry := Or(retry, d.value.retry))
  }

  // The deprecated name of a group becomes its alias, unless it has one; it is moved, which
  // leaves an empty one.
  function FillQueueGroup(d: Option<QueueDefault>): QueueGroup -> QueueGroup {
    (g: QueueGroup) =>
      g.(alias := Or(g.alias, g.name),
         name := if g.alias.None? && g.name.Some? then Some("") else g.name,
         queues := Each(FillQueue(d), g.queues))
  }

  function FillServiceForward(d: ForwardDefault): ServiceForward -> ServiceForward {
    (f: ServiceForward) =>
      f.(instances := Or(f.instances, d.instances),
         reply := if f.reply.Some? then Some(f.reply.value.(delay := Or(f.reply.value.delay, d.delay))) else None)
  }

  function FillQueueForward(d: ForwardDefault): QueueForward -> QueueForward {
    (f: QueueForward) =>
      f.(instances := Or(f.instances, d.instances), target := f.target.(delay := Or(f.target.delay, d.delay)))
  }

  function FillForwardGroup(d: ForwardDefaults): ForwardGroup -> ForwardGroup {
    (g: ForwardGroup) =>
      g.(services :=
           if d.service.Some? then EachInside(FillServiceForward(d.service.value), g.services) else g.services,
         queues := if d.queue.Some? then EachInside(FillQueueForward(d.queue.value), g.queues) else g.queues)
  }

  function NormalForward(m: Forward): Forward {
    if m.defaults.None? then m else m.(groups := EachInside(FillForwardGroup(m.defaults.value), m.groups))
  }

  function NormalQueueDefaults(d: QueueDefaults): QueueDefaults {
    if d.queue.None? then d
    else d.(queue := Some(d.queue.value.(retry := RetryFrom(d.queue.value.retry, d.queue.value.retries))))
  }

  predicate Named(s: seq<Queue>) { forall i :: 0 <= i < |s| ==> s[i].name != "" }

  predicate QueueGroupsValid(s: seq<QueueGroup>) { forall i :: 0 <= i < |s| ==> Named(s[i].queues) }

  predicate QueuesValid(m: Queues) { m.groups.Some? ==> QueueGroupsValid(m.groups.value) }

  function NormalQueues(m: Queues): Queues {
    var defaults := Inside(NormalQueueDefaults, m.defaults);
    var d := if defaults.Some? then defaults.value.queue else None;
    Queues(defaults, EachInside(FillQueueGroup(d), m.groups), Inside(NormalForward, m.forward))
  }

  // ----- The domain -----

  // Entities without an alias get a placeholder that is not used elsewhere.
  function Aliased(es: seq<Entity>, placeholder: nat -> string): (r: seq<Entity>)
    ensures |r| == |es|
    ensures forall i :: 0 <= i < |es| ==>
      r[i] == if es[i].alias in {None, Some("")} then es[i].(alias := Some(placeholder(i))) else es[i]
  {
    seq(|es|, i requires 0 <= i < |es| =>
          if es[i].alias in {None, Some("")} then es[i].(alias := Some(placeholder(i))) else es[i])
  }

  function FillEntity(d: EntityDefault): Entity -> Entity {
    (e: Entity) =>
      e.(instances := Or(e.instances, Some(d.instances)), memberships := Or(e.memberships, d.memberships),
         environment := Or(e.environment, d.environment), restart := Or(e.restart, Some(d.restart)))
  }

  function NormalEntities(es: Option<seq<Entity>>, d: Option<EntityDefault>, placeholder: nat -> string)
    : Option<seq<Entity>>
  {
    if es.None? then None
    else
      var aliased := Aliased(es.value, placeholder);
      Some(if d.Some? then Each(FillEntity(d.value), aliased) else aliased)
  }

  function FillTimeout(t: Option<Timeout>, d: Timeout): Timeout {
    var own := if t.Some? then t.value else Timeout(None, None);
    Timeout(Or(own.duration, d.duration), Or(own.contract, d.contract))
  }

  function FillService(d: ServiceDefault): Service -> Service {
    (s: Service) =>
      s.(timeout := Or(s.timeout, d.timeout),
         execution :=
           if d.execution.None? then s.execution
           else
             var own := if s.execution.Some? then s.execution.value else Execution(None);
             Some(if d.execution.value.timeout.None? then own
                  else Execution(Some(FillTimeout(own.timeout, d.execution.value.timeout.value)))))
  }

  // What is left of an environment that has been moved from.
  function Emptied(e: Environment): Environment {
    Environment(if e.files.Some? then Some([]) else None, if e.variables.Some? then Some([]) else None)
  }

  function NormalDomain(m: Domain, servers: nat -> string, executables: nat -> string): Domain {
    var d := if m.defaults.Some? then m.defaults.value else Defaults(None, None, None, None);
    m.(executables := NormalEntities(m.executables, d.executable, executables),
       servers := NormalEntities(m.servers, d.server, servers),
       transaction := Inside(NormalTransactions, m.transaction),
       gateway := Inside(NormalGateway, m.gateway),
       queue := Inside(NormalQueues, m.queue),
       environment := Or(m.environment, d.environment),
       defaults := if m.defaults.Some? && m.environment.None? && d.environment.Some?
                   then Some(d.(environment := Some(Emptied(d.environment.value)))) else m.defaults,
       services := if d.service.Some? then EachInside(FillService(d.service.value), m.services) else m.services)
  }

  predicate DomainValid(m: Domain) {
    (m.gateway.Some? ==> GatewayValid(m.gateway.value)) && (m.queue.Some? ==> QueuesValid(m.queue.value))
  }

  function Normalized(m: Domain, servers: nat -> string, executables: nat -> string): Result<Domain, Error> {
    if DomainValid(m) then Ok(NormalDomain(m, servers, executables)) else Err(InvalidConfiguration)
  }

  // ----- The code -----

  method Alias(es: seq<Entity>, placeholder: nat -> string) returns (r: seq<Entity>)
    ensures r == Aliased(es, placeholder)
  {
    r := es;
    for i := 0 to |es|
      invariant |r| == |es|
      invariant forall k :: 0 <= k < i ==> r[k] == Aliased(es, placeholder)[k]
      invariant forall k :: i <= k < |es| ==> r[k] == es[k]
    {
      if r[i].alias.None? || r[i].alias.value == "" { r := r[i := r[i].(alias := Some(placeholder(i)))]; }
    }
  }

  method FillInbound(d: Option<bool>, s: seq<InboundConnection>) returns (r: Option<seq<InboundConnection>>)
    ensures r == if InboundAddressed(s) then Some(Each(FillInboundConnection(d), s)) else None
  {
    var t := s;
    for i := 0 to |s|
      invariant |t| == |s|
      invariant forall k :: 0 <= k < i ==> t[k] == FillInboundConnection(d)(s[k]) && s[k].address != ""
      invariant forall k :: i <= k < |s| ==> t[k] == s[k]
    {
      t := t[i := FillInboundConnection(d)(t[i])];
      if t[i].address == "" { return None; }
    }
    assert t == Each(FillInboundConnection(d), s);
    return Some(t);
  }

  method NormalizeInbound(m: Inbound) returns (r: Result<Inbound, Error>)
    ensures r == if InboundValid(m) then Ok(NormalInbound(m)) else Err(InvalidConfiguration)
  {
    var d := InboundDefaults(m);
    var discovery := if d.connection.Some? then d.connection.value.discovery else None;
    var groups := m.groups;
    for i := 0 to |groups|
      invariant |groups| == |m.groups|
      invariant forall k :: 0 <= k < i ==>
        && InboundAddressed(m.groups[k].connections)
        && groups[k] == m.groups[k].(connections := Each(FillInboundConnection(discovery), m.groups[k].connections))
      invariant forall k :: i <= k < |groups| ==> groups[k] == m.groups[k]
    {
      var connections := FillInbound(discovery, groups[i].connections);
      if connections.None? { return Err(InvalidConfiguration); }
      groups := groups[i := groups[i].(connections := connections.value)];
    }
    if d.limit.Some? {
      ghost var addressed := groups;
      for i := 0 to |groups|
        invariant |groups| == |m.groups|
        invariant forall k :: 0 <= k < i ==> groups[k] == FillInboundGroup(d)(m.groups[k])
        invariant forall k :: i <= k < |groups| ==> groups[k] == addressed[k]
      {
        if groups[i].limit.Some? {
          groups := groups[i := groups[i].(limit := Some(FillLimit(d.limit.value)(groups[i].limit.value)))];
        }
      }
    }
    assert groups == Each(FillInboundGroup(d), m.groups);
    return Ok(m.(groups := groups));
  }

  method CheckOutbound(m: Outbound) returns (ok: bool)
    ensures ok == OutboundValid(m)
  {
    for i := 0 to |m.groups|
      invariant forall k :: 0 <= k < i ==> OutboundAddressed(m.groups[k].connections)
    {
      var connections := m.groups[i].connections;
      for j := 0 to |connections|
        invariant forall k :: 0 <= k < j ==> connections[k].address != ""
      {
        if connections[j].address == "" { return false; }
      }
    }
    return true;
  }

  method NormalizeGates(m: Gates) returns (r: Result<Gates, Error>)
    ensures r == if GatesValid(m) then Ok(NormalGates(m)) else Err(InvalidConfiguration)
  {
    var n := m;
    if n.inbound.Some? {
      var inbound := NormalizeInbound(n.inbound.value);
      if inbound.Err? { return Err(inbound.error); }
      n := n.(inbound := Some(inbound.value));
    }
    if n.outbound.Some? {
      var ok := CheckOutbound(n.outbound.value);
      if !ok { return Err(InvalidConfiguration); }
    }
    return Ok(n);
  }

  method NormalizeGateway(m: Gateway) returns (r: Result<Gateway, Error>)
    ensures r == if GatewayValid(m) then Ok(NormalGateway(m)) else Err(InvalidConfiguration)
  {
    var n := m;
    var regular := NormalizeGates(n.regular);
    if regular.Err? { return Err(regular.error); }
    n := n.(regular := regular.value);
    if n.reverse.Some? {
      var reverse := NormalizeGates(n.reverse.value);
      if reverse.Err? { return Err(reverse.error); }
      n := n.(reverse := Some(reverse.value));
    }
    if n.defaults.None? { return Ok(n); }
    if n.defaults.value.connection.Some? && n.connections.Some? {
      var peers := ForEach(FillPeer(n.defaults.value.connection.value), n.connections.value);
      n := n.(connections := Some(peers));
    }
    if n.defaults.value.listenerLimit.Some? && n.listeners.Some? {
      var listeners := ForEach(FillListener(n.defaults.value.listenerLimit.value), n.listeners.value);
      n := n.(listeners := Some(listeners));
    }
    return Ok(n);
  }

  method FillQueues(d: Option<QueueDefault>, s: seq<Queue>) returns (r: Option<seq<Queue>>)
    ensures r == if Named(s) then Some(Each(FillQueue(d), s)) else None
  {
    var t := s;
    for i := 0 to |s|
      invariant |t| == |s|
      invariant forall k :: 0 <= k < i ==> t[k] == FillQueue(d)(s[k]) && s[k].name != ""
      invariant forall k :: i <= k < |s| ==> t[k] == s[k]
    {
      if t[i].name == "" { return None; }
      t := t[i := FillQueue(d)(t[i])];
    }
    assert t == Each(FillQueue(d), s);
    return Some(t);
  }

  method NormalizeQueueGroups(d: Option<QueueDefault>, s: seq<QueueGroup>) returns (r: Option<seq<QueueGroup>>)
    ensures r == if QueueGroupsValid(s) then Some(Each(FillQueueGroup(d), s)) else None
  {
    var t := s;
    for i := 0 to |s|
      invariant |t| == |s|
      invariant forall k :: 0 <= k < i ==> t[k] == FillQueueGroup(d)(s[k]) && Named(s[k].queues)
      invariant forall k :: i <= k < |s| ==> t[k] == s[k]
    {
      if t[i].alias.None? && t[i].name.Some? { t := t[i := t[i].(alias := t[i].name, name := Some(""))]; }
      var queues := FillQueues(d, t[i].queues);
      if queues.None? { return None; }
      t := t[i := t[i].(queues := queues.value)];
    }
    assert t == Each(FillQueueGroup(d), s);
    return Some(t);
  }

  method NormalizeForward(m: Forward) returns (n: Forward)
    ensures n == NormalForward(m)
  {
    if m.defaults.None? || m.groups.None? { return m; }
    var d := m.defaults.value;
    var groups := m.groups.value;
    for i := 0 to |groups|
      invariant |groups| == |m.groups.value|
      invariant forall k :: 0 <= k < i ==> groups[k] == FillForwardGroup(d)(m.groups.value[k])
      invariant forall k :: i <= k < |groups| ==> groups[k] == m.groups.value[k]
    {
      if groups[i].services.Some? && d.service.Some? {
        var services := ForEach(FillServiceForward(d.service.value), groups[i].services.value);
        groups := groups[i := groups[i].(services := Some(services))];
      }
      if groups[i].queues.Some? && d.queue.Some? {
        var queues := ForEach(FillQueueForward(d.queue.value), groups[i].queues.value);
        groups := groups[i := groups[i].(queues := Some(queues))];
      }
    }
    assert groups == Each(FillForwardGroup(d), m.groups.value);
    return m.(groups := Some(groups));
  }

  method NormalizeQueues(m: Queues) returns (r: Result<Queues, Error>)
    ensures r == if QueuesValid(m) then Ok(NormalQueues(m)) else Err(InvalidConfiguration)
  {
    var n := m;
    if n.defaults.Some? && n.defaults.value.queue.Some? {
      var d := n.defaults.value.queue.value;
      n := n.(defaults := Some(n.defaults.value.(queue := Some(d.(retry := RetryFrom(d.retry, d.retries))))));
    }
    if n.groups.Some? {
      var groups := NormalizeQueueGroups(if n.defaults.Some? then n.defaults.value.queue else None, n.groups.value);
      if groups.None? { return Err(InvalidConfiguration); }
      n := n.(groups := groups);
    }
    if n.forward.Some? {
      var forward := NormalizeForward(n.forward.value);
      n := n.(forward := Some(forward));
    }
    return Ok(n);
  }

  // What is done without regard to the defaults of the domain.
  method NormalizeParts(m: Domain, servers: nat -> string, executables: nat -> string)
    returns (r: Result<Domain, Error>)
    ensures r == if !DomainValid(m) then Err(InvalidConfiguration) else
                 Ok(m.(executables := NormalEntities(m.executables, None, executables),
                       servers := NormalEntities(m.servers, None, servers),
                       transaction := Inside(NormalTransactions, m.transaction),
                       gateway := Inside(NormalGateway, m.gateway),
                       queue := Inside(NormalQueues, m.queue)))
  {
    var n := m;
    if n.executables.Some? {
      var es := Alias(n.executables.value, executables);
      n := n.(executables := Some(es));
    }
    if n.servers.Some? {
      var es := Alias(n.servers.value, servers);
      n := n.(servers := Some(es));
    }
    if n.transaction.Some? && n.transaction.value.defaults.Some? {
      var t := n.transaction.value;
      var resources := ForEach(FillResource(t.defaults.value), t.resources);
      n := n.(transaction := Some(t.(resources := resources)));
    }
    if n.gateway.Some? {
      var gateway := NormalizeGateway(n.gateway.value);
      if gateway.Err? { return Err(gateway.error); }
      n := n.(gateway := Some(gateway.value));
    }
    if n.queue.Some? {
      var queue := NormalizeQueues(n.queue.value);
      if queue.Err? { return Err(queue.error); }
      n := n.(queue := Some(queue.value));
    }
    return Ok(n);
  }

  method Normalize(m: Domain, servers: nat -> string, executables: nat -> string) returns (r: Result<Domain, Error>)
    ensures r == Normalized(m, servers, executables)
  {
    var parts := NormalizeParts(m, servers, executables);
    if parts.Err? { return parts; }
    var n := parts.value;
    if n.defaults.None? { return Ok(n); }
    var d := n.defaults.value;
    if d.environment.Some? && n.environment.None? {
      n := n.(environment := d.environment,
              defaults := Some(d.(environment := Some(Emptied(d.environment.value)))));
    }
    if d.server.Some? && n.servers.Some? {
      var es := ForEach(FillEntity(d.server.value), n.servers.value);
      n := n.(servers := Some(es));
    }
    if d.executable.Some? && n.executables.Some? {
      var es := ForEach(FillEntity(d.executable.value), n.executables.value);
      n := n.(executables := Some(es));
    }
    if d.service.Some? && n.services.Some? {
      var services := ForEach(FillService(d.service.value), n.services.value);
      n := n.(services := Some(services));
    }
    return Ok(n);
  }
}
