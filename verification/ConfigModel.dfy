// The configuration model and its merge, component by component. A component's merge puts
// lists together by key, some of whose entities hold lists that are merged in turn.
module ConfigModel {
  import opened Wrappers
  import opened ConfigMerge
  import EnvironmentVariable

  // ----- Entities -----

  datatype Resource = Resource(key: string, server: string, xaStructName: string, libraries: seq<string>,
                               includePaths: seq<string>, libraryPaths: seq<string>, note: string)
  datatype System = System(resources: seq<Resource>)

  datatype DomainGroup = DomainGroup(name: string, note: string, dependencies: seq<string>)
  datatype Entity = Entity(alias: string, path: string, arguments: seq<string>, instances: int,
                           memberships: seq<string>, variables: seq<string>, restart: bool, note: string)
  datatype Domain = Domain(name: string, variables: seq<string>, groups: seq<DomainGroup>,
                           servers: seq<Entity>, executables: seq<Entity>)

  datatype TransactionResource = TransactionResource(name: string, key: string, instances: int, note: string,
                                                     openinfo: string, closeinfo: string)
  datatype Mapping = Mapping(alias: string, resources: seq<string>)
  datatype Transaction = Transaction(log: string, resources: seq<TransactionResource>, mappings: seq<Mapping>)

  datatype Contract = Linger | Kill | Terminate
  datatype Timeout = Timeout(duration: Option<int>, contract: Contract)
  datatype Service = Service(name: string, routes: seq<string>, timeout: Timeout)
  datatype Restriction = Restriction(alias: string, services: seq<string>)
  datatype Services = Services(timeout: Timeout, services: seq<Service>, restrictions: seq<Restriction>)

  datatype Retry = Retry(count: int, delay: int)
  datatype Queue = Queue(name: string, retry: Retry, note: string)
  datatype QueueGroup = QueueGroup(alias: string, queuebase: string, note: string, queues: seq<Queue>)
  datatype Target = Target(queue: string, delay: int)
  datatype QueueForward = QueueForward(alias: string, source: string, instances: int, note: string, target: Target)
  datatype ServiceForward = ServiceForward(alias: string, source: string, instances: int, note: string,
                                           service: string, reply: Option<Target>)
  datatype ForwardGroup = ForwardGroup(alias: string, services: seq<ServiceForward>, queues: seq<QueueForward>,
                                       note: string)
  datatype Queues = Queues(groups: seq<QueueGroup>, forwards: seq<ForwardGroup>, note: string)

  datatype Semantic = Unknown | Regular | Reversed
  datatype Directive = Localized | Forward
  datatype Exclude = Exclude(services: seq<string>, queues: seq<string>)
  datatype InboundConnection = InboundConnection(address: string, discovery: Directive, exclude: Exclude, note: string)
  datatype Limit = Limit(size: int, messages: int)
  datatype InboundGroup = InboundGroup(connect: Semantic, alias: string, limit: Limit,
                                       connections: seq<InboundConnection>, note: string)
  datatype OutboundConnection = OutboundConnection(address: string, services: seq<string>, queues: seq<string>,
                                                   note: string)
  datatype OutboundGroup = OutboundGroup(alias: string, connect: Semantic, connections: seq<OutboundConnection>,
                                         note: string)
  datatype Gateway = Gateway(inbound: seq<InboundGroup>, outbound: seq<OutboundGroup>)

  datatype Model = Model(system: System, domain: Domain, transaction: Transaction, service: Services,
                         queue: Queues, gateway: Gateway)

  // ----- Keys -----

  // An alias or a name is a key unless it is empty.
  function Name(s: string): Option<string> { if s == "" then None else Some(s) }

  // Gateway groups are the same when both alias and direction are.
  function GroupName(alias: string, connect: Semantic): Option<(string, Semantic)> {
    if alias == "" then None else Some((alias, connect))
  }

  function Coalesce(first: string, second: string): string { if first != "" then first else second }

  function AppendUnique(target: seq<string>, source: seq<string>): seq<string>
    decreases |source|
  {
    if source == [] then target
    else
      var n := |source| - 1;
      var r := AppendUnique(target, source[..n]);
      if source[n] in r then r else r + [source[n]]
  }

  // ----- Rules of the lists -----

  function ResourceRule(): Rule<Resource, string> { Replacing((r: Resource) => Some(r.key)) }
  function VariableRule(): Rule<string, string> { Replacing((v: string) => Some(EnvironmentVariable.Name(v))) }
  function DomainGroupRule(): Rule<DomainGroup, string> { Replacing((g: DomainGroup) => Name(g.name)) }
  function EntityRule(): Rule<Entity, string> { Replacing((e: Entity) => Name(e.alias)) }
  function TransactionResourceRule(): Rule<TransactionResource, string> {
    Replacing((r: TransactionResource) => Name(r.name))
  }
  function MappingRule(): Rule<Mapping, string> { Replacing((m: Mapping) => Name(m.alias)) }
  function ServiceRule(): Rule<Service, string> { Replacing((s: Service) => Name(s.name)) }
  function RestrictionRule(): Rule<Restriction, string> { Replacing((r: Restriction) => Name(r.alias)) }
  function QueueRule(): Rule<Queue, string> { Replacing((q: Queue) => Name(q.name)) }
  function ServiceForwardRule(): Rule<ServiceForward, string> { Replacing((f: ServiceForward) => Name(f.alias)) }
  function QueueForwardRule(): Rule<QueueForward, string> { Replacing((f: QueueForward) => Name(f.alias)) }

  function PlusQueueGroup(x: QueueGroup, y: QueueGroup): QueueGroup {
    x.(note := Coalesce(y.note, x.note), queues := Merge(QueueRule(), x.queues, y.queues))
  }

  function QueueGroupRule(): Rule<QueueGroup, string> {
    Rule((g: QueueGroup) => Name(g.alias), PlusQueueGroup, (g: QueueGroup) => Unique(QueueRule(), g.queues))
  }

  function PlusForwardGroup(x: ForwardGroup, y: ForwardGroup): ForwardGroup {
    x.(note := Coalesce(y.note, x.note),
       services := Merge(ServiceForwardRule(), x.services, y.services),
       queues := Merge(QueueForwardRule(), x.queues, y.queues))
  }

  function ForwardGroupRule(): Rule<ForwardGroup, string> {
    Rule((g: ForwardGroup) => Name(g.alias), PlusForwardGroup,
         (g: ForwardGroup) => Unique(ServiceForwardRule(), g.services) && Unique(QueueForwardRule(), g.queues))
  }

  function PlusInboundConnection(x: InboundConnection, y: InboundConnection): InboundConnection {
    x.(note := Coalesce(y.note, x.note), discovery := y.discovery)
  }

  function InboundConnectionRule(): Rule<InboundConnection, string> {
    Rule((c: InboundConnection) => Some(c.address), PlusInboundConnection, (c: InboundConnection) => true)
  }

  function PlusInboundGroup(x: InboundGroup, y: InboundGroup): InboundGroup {
    x.(note := Coalesce(y.note, x.note), connect := y.connect, limit := y.limit,
       connections := Merge(InboundConnectionRule(), x.connections, y.connections))
  }

  function InboundGroupRule(): Rule<InboundGroup, (string, Semantic)> {
    Rule((g: InboundGroup) => GroupName(g.alias, g.connect), PlusInboundGroup,
         (g: InboundGroup) => Unique(InboundConnectionRule(), g.connections))
  }

  function PlusOutboundConnection(x: OutboundConnection, y: OutboundConnection): OutboundConnection {
    x.(note := Coalesce(y.note, x.note),
       services := AppendUnique(x.services, y.services), queues := AppendUnique(x.queues, y.queues))
  }

  function OutboundConnectionRule(): Rule<OutboundConnection, string> {
    Rule((c: OutboundConnection) => Some(c.address), PlusOutboundConnection, (c: OutboundConnection) => true)
  }

  function PlusOutboundGroup(x: OutboundGroup, y: OutboundGroup): OutboundGroup {
    x.(note := Coalesce(y.note, x.note), connect := y.connect,
       connections := Merge(OutboundConnectionRule(), x.connections, y.connections))
  }

  function OutboundGroupRule(): Rule<OutboundGroup, (string, Semantic)> {
    Rule((g: OutboundGroup) => GroupName(g.alias, g.connect), PlusOutboundGroup,
         (g: OutboundGroup) => Unique(OutboundConnectionRule(), g.connections))
  }

  // ----- Merging components -----

  function PlusSystem(x: System, y: System): System {
    System(Merge(ResourceRule(), x.resources, y.resources))
  }

  function PlusDomain(x: Domain, y: Domain): Domain {
    Domain(Coalesce(y.name, x.name),
           Merge(VariableRule(), x.variables, y.variables),
           Merge(DomainGroupRule(), x.groups, y.groups),
           Merge(EntityRule(), x.servers, y.servers),
           Merge(EntityRule(), x.executables, y.executables))
  }

  function PlusTransaction(x: Transaction, y: Transaction): Transaction {
    Transaction(Coalesce(y.log, x.log),
                Merge(TransactionResourceRule(), x.resources, y.resources),
                Merge(MappingRule(), x.mappings, y.mappings))
  }

  function PlusServices(x: Services, y: Services): Services {
    Services(if y.timeout.duration.Some? then y.timeout else x.timeout,
             Merge(ServiceRule(), x.services, y.services),
             Merge(RestrictionRule(), x.restrictions, y.restrictions))
  }

  function PlusQueues(x: Queues, y: Queues): Queues {
    Queues(Merge(QueueGroupRule(), x.groups, y.groups),
           Merge(ForwardGroupRule(), x.forwards, y.forwards),
           Coalesce(y.note, x.note))
  }

  function PlusGateway(x: Gateway, y: Gateway): Gateway {
    Gateway(Merge(InboundGroupRule(), x.inbound, y.inbound), Merge(OutboundGroupRule(), x.outbound, y.outbound))
  }

  function Plus(x: Model, y: Model): Model {
    Model(PlusSystem(x.system, y.system), PlusDomain(x.domain, y.domain),
          PlusTransaction(x.transaction, y.transaction), PlusServices(x.service, y.service),
          PlusQueues(x.queue, y.queue), PlusGateway(x.gateway, y.gateway))
  }

  // ----- The code: operator += of the whole model -----

  class Configuration {
    var system: System
    var domain: Domain
    var transaction: Transaction
    var service: Services
    var queue: Queues
    var gateway: Gateway

    ghost function Value(): Model
      reads this
    {
      Model(system, domain, transaction, service, queue, gateway)
    }

    constructor (model: Model)
      ensures Value() == model
    {
      system, domain, transaction := model.system, model.domain, model.transaction;
      service, queue, gateway := model.service, model.queue, model.gateway;
    }

    method AddSystem(rhs: System)
      modifies this`system
      ensures system == PlusSystem(old(system), rhs)
    {
      var resources := MergeInto(ResourceRule(), system.resources, rhs.resources);
      system := System(resources);
    }

    method AddDomain(rhs: Domain)
      modifies this`domain
      ensures domain == PlusDomain(old(domain), rhs)
    {
      domain := domain.(name := Coalesce(rhs.name, domain.name));
      var variables := MergeInto(VariableRule(), domain.variables, rhs.variables);
      domain := domain.(variables := variables);
      var groups := MergeInto(DomainGroupRule(), domain.groups, rhs.groups);
      domain := domain.(groups := groups);
      var servers := MergeInto(EntityRule(), domain.servers, rhs.servers);
      domain := domain.(servers := servers);
      var executables := MergeInto(EntityRule(), domain.executables, rhs.executables);
      domain := domain.(executables := executables);
    }

    method AddTransaction(rhs: Transaction)
      modifies this`transaction
      ensures transaction == PlusTransaction(old(transaction), rhs)
    {
      transaction := transaction.(log := Coalesce(rhs.log, transaction.log));
      var resources := MergeInto(TransactionResourceRule(), transaction.resources, rhs.resources);
      transaction := transaction.(resources := resources);
      var mappings := MergeInto(MappingRule(), transaction.mappings, rhs.mappings);
      transaction := transaction.(mappings := mappings);
    }

    method AddService(rhs: Services)
      modifies this`service
      ensures service == PlusServices(old(service), rhs)
    {
      if rhs.timeout.duration.Some? { service := service.(timeout := rhs.timeout); }
      var services := MergeInto(ServiceRule(), service.services, rhs.services);
      service := service.(services := services);
      var restrictions := MergeInto(RestrictionRule(), service.restrictions, rhs.restrictions);
      service := service.(restrictions := restrictions);
    }

    method AddQueue(rhs: Queues)
      modifies this`queue
      ensures queue == PlusQueues(old(queue), rhs)
    {
      queue := queue.(note := Coalesce(rhs.note, queue.note));
      var groups := MergeInto(QueueGroupRule(), queue.groups, rhs.groups);
      queue := queue.(groups := groups);
      var forwards := MergeInto(ForwardGroupRule(), queue.forwards, rhs.forwards);
      queue := queue.(forwards := forwards);
    }

    method AddGateway(rhs: Gateway)
      modifies this`gateway
      ensures gateway == PlusGateway(old(gateway), rhs)
    {
      var inbound := MergeInto(InboundGroupRule(), gateway.inbound, rhs.inbound);
      gateway := gateway.(inbound := inbound);
      var outbound := MergeInto(OutboundGroupRule(), gateway.outbound, rhs.outbound);
      gateway := gateway.(outbound := outbound);
    }

    method Add(rhs: Model)
      modifies this
      ensures Value() == Plus(old(Value()), rhs)
    {
      AddSystem(rhs.system);
      AddDomain(rhs.domain);
      AddTransaction(rhs.transaction);
      AddService(rhs.service);
      AddQueue(rhs.queue);
      AddGateway(rhs.gateway);
      PlusInParts(old(Value()), rhs, Value());
    }
  }

  lemma PlusInParts(x: Model, y: Model, r: Model)
    requires r.system == PlusSystem(x.system, y.system) && r.domain == PlusDomain(x.domain, y.domain)
    requires r.transaction == PlusTransaction(x.transaction, y.transaction)
    requires r.service == PlusServices(x.service, y.service)
    requires r.queue == PlusQueues(x.queue, y.queue) && r.gateway == PlusGateway(x.gateway, y.gateway)
    ensures r == Plus(x, y)
  {
  }

  // ----- The rules are lawful -----

  lemma {:induction false} AppendUniqueHas(target: seq<string>, source: seq<string>)
    ensures forall v :: v in AppendUnique(target, source) <==> v in target || v in source
    decreases |source|
  {
    if source != [] {
      var n := |source| - 1;
      AppendUniqueHas(target, source[..n]);
      assert source == source[..n] + [source[n]];
    }
  }

  lemma {:induction false} AppendUniqueAssociates(a: seq<string>, b: seq<string>, c: seq<string>)
    ensures AppendUnique(AppendUnique(a, b), c) == AppendUnique(a, AppendUnique(b, c))
    decreases |c|
  {
    if c != [] {
      var n := |c| - 1;
      AppendUniqueAssociates(a, b, c[..n]);
      var bc := AppendUnique(b, c[..n]);
      AppendUniqueHas(a, bc);
      assert (bc + [c[n]])[..|bc|] == bc;
    }
  }

  lemma {:induction false} AppendUniqueSelf(s: seq<string>, n: nat)
    requires n <= |s|
    ensures AppendUnique(s, s[..n]) == s
    decreases n
  {
    if n > 0 {
      AppendUniqueSelf(s, n - 1);
      assert s[..n][..n - 1] == s[..n - 1];
    }
  }

  lemma QueueGroupLaws()
    ensures Lawful(QueueGroupRule())
  {
    var rule := QueueGroupRule();
    forall x, y ensures KeepsOk(rule, x, y) {
      if rule.ok(x) { MergeUnique(QueueRule(), x.queues, y.queues); }
    }
    forall x, y, z ensures Associates(rule, x, y, z) {
      if rule.ok(y) { MergeAssociates(QueueRule(), x.queues, y.queues, z.queues); }
    }
  }

  lemma ForwardGroupLaws()
    ensures Lawful(ForwardGroupRule())
  {
    var rule := ForwardGroupRule();
    forall x, y ensures KeepsOk(rule, x, y) {
      if rule.ok(x) {
        MergeUnique(ServiceForwardRule(), x.services, y.services);
        MergeUnique(QueueForwardRule(), x.queues, y.queues);
      }
    }
    forall x, y, z ensures Associates(rule, x, y, z) {
      if rule.ok(y) {
        MergeAssociates(ServiceForwardRule(), x.services, y.services, z.services);
        MergeAssociates(QueueForwardRule(), x.queues, y.queues, z.queues);
      }
    }
  }

  lemma InboundConnectionLaws()
    ensures Lawful(InboundConnectionRule())
  {
  }

  lemma InboundGroupLaws()
    ensures Lawful(InboundGroupRule())
  {
    InboundConnectionLaws();
    var rule := InboundGroupRule();
    forall x, y ensures KeepsOk(rule, x, y) {
      if rule.ok(x) { MergeUnique(InboundConnectionRule(), x.connections, y.connections); }
    }
    forall x, y, z ensures Associates(rule, x, y, z) {
      if rule.ok(y) { MergeAssociates(InboundConnectionRule(), x.connections, y.connections, z.connections); }
    }
  }

  lemma OutboundConnectionLaws()
    ensures Lawful(OutboundConnectionRule())
  {
    forall x, y, z ensures Associates(OutboundConnectionRule(), x, y, z) {
      AppendUniqueAssociates(x.services, y.services, z.services);
      AppendUniqueAssociates(x.queues, y.queues, z.queues);
    }
  }

  lemma OutboundGroupLaws()
    ensures Lawful(OutboundGroupRule())
  {
    OutboundConnectionLaws();
    var rule := OutboundGroupRule();
    forall x, y ensures KeepsOk(rule, x, y) {
      if rule.ok(x) { MergeUnique(OutboundConnectionRule(), x.connections, y.connections); }
    }
    forall x, y, z ensures Associates(rule, x, y, z) {
      if rule.ok(y) { MergeAssociates(OutboundConnectionRule(), x.connections, y.connections, z.connections); }
    }
  }

  // ----- Well-formed models: unique keys in every list, also the nested ones -----

  predicate UniqueOk<T(!new), K>(rule: Rule<T, K>, s: seq<T>) {
    Unique(rule, s) && forall i :: 0 <= i < |s| ==> rule.ok(s[i])
  }

  predicate UniqueDomain(m: Domain) {
    && Unique(VariableRule(), m.variables) && Unique(DomainGroupRule(), m.groups)
    && Unique(EntityRule(), m.servers) && Unique(EntityRule(), m.executables)
  }

  predicate UniqueTransaction(m: Transaction) {
    Unique(TransactionResourceRule(), m.resources) && Unique(MappingRule(), m.mappings)
  }

  predicate UniqueServices(m: Services) {
    Unique(ServiceRule(), m.services) && Unique(RestrictionRule(), m.restrictions)
  }

  predicate UniqueQueues(m: Queues) {
    UniqueOk(QueueGroupRule(), m.groups) && UniqueOk(ForwardGroupRule(), m.forwards)
  }

  predicate UniqueGateway(m: Gateway) {
    UniqueOk(InboundGroupRule(), m.inbound) && UniqueOk(OutboundGroupRule(), m.outbound)
  }

  // Unique keys in the nested lists alone.
  ghost predicate NestedUnique(m: Model) {
    && AllOk(QueueGroupRule(), m.queue.groups) && AllOk(ForwardGroupRule(), m.queue.forwards)
    && AllOk(InboundGroupRule(), m.gateway.inbound) && AllOk(OutboundGroupRule(), m.gateway.outbound)
  }

  predicate UniqueKeys(m: Model) {
    && Unique(ResourceRule(), m.system.resources)
    && UniqueDomain(m.domain) && UniqueTransaction(m.transaction) && UniqueServices(m.service)
    && UniqueQueues(m.queue) && UniqueGateway(m.gateway)
  }

  // ----- Associativity -----

  // The lists in which a later entity takes the place of an earlier one say the same at the
  // end of every key that b has more than once.
  ghost predicate AgreeDomain(b: Domain, c: Domain) {
    && Agree(VariableRule().key, b.variables, c.variables) && Agree(DomainGroupRule().key, b.groups, c.groups)
    && Agree(EntityRule().key, b.servers, c.servers) && Agree(EntityRule().key, b.executables, c.executables)
  }

  ghost predicate AgreeTransaction(b: Transaction, c: Transaction) {
    && Agree(TransactionResourceRule().key, b.resources, c.resources)
    && Agree(MappingRule().key, b.mappings, c.mappings)
  }

  ghost predicate AgreeServices(b: Services, c: Services) {
    Agree(ServiceRule().key, b.services, c.services) && Agree(RestrictionRule().key, b.restrictions, c.restrictions)
  }

  lemma DomainAssociatesExactly(a: Domain, b: Domain, c: Domain)
    ensures PlusDomain(PlusDomain(a, b), c) == PlusDomain(a, PlusDomain(b, c)) <==> AgreeDomain(b, c)
  {
    ReplaceAssociatesExactly(VariableRule().key, a.variables, b.variables, c.variables);
    ReplaceAssociatesExactly(DomainGroupRule().key, a.groups, b.groups, c.groups);
    ReplaceAssociatesExactly(EntityRule().key, a.servers, b.servers, c.servers);
    ReplaceAssociatesExactly(EntityRule().key, a.executables, b.executables, c.executables);
  }

  lemma TransactionAssociatesExactly(a: Transaction, b: Transaction, c: Transaction)
    ensures PlusTransaction(PlusTransaction(a, b), c) == PlusTransaction(a, PlusTransaction(b, c))
            <==> AgreeTransaction(b, c)
  {
    ReplaceAssociatesExactly(TransactionResourceRule().key, a.resources, b.resources, c.resources);
    ReplaceAssociatesExactly(MappingRule().key, a.mappings, b.mappings, c.mappings);
  }

  lemma ServicesAssociateExactly(a: Services, b: Services, c: Services)
    ensures PlusServices(PlusServices(a, b), c) == PlusServices(a, PlusServices(b, c)) <==> AgreeServices(b, c)
  {
    ReplaceAssociatesExactly(ServiceRule().key, a.services, b.services, c.services);
    ReplaceAssociatesExactly(RestrictionRule().key, a.restrictions, b.restrictions, c.restrictions);
  }

  lemma QueuesAssociate(a: Queues, b: Queues, c: Queues)
    requires UniqueQueues(b) && AllOk(QueueGroupRule(), c.groups) && AllOk(ForwardGroupRule(), c.forwards)
    ensures PlusQueues(PlusQueues(a, b), c) == PlusQueues(a, PlusQueues(b, c))
  {
    QueueGroupLaws();
    MergeAssociates(QueueGroupRule(), a.groups, b.groups, c.groups);
    ForwardGroupLaws();
    MergeAssociates(ForwardGroupRule(), a.forwards, b.forwards, c.forwards);
  }

  lemma GatewayAssociates(a: Gateway, b: Gateway, c: Gateway)
    requires UniqueGateway(b) && AllOk(InboundGroupRule(), c.inbound) && AllOk(OutboundGroupRule(), c.outbound)
    ensures PlusGateway(PlusGateway(a, b), c) == PlusGateway(a, PlusGateway(b, c))
  {
    InboundGroupLaws();
    MergeAssociates(InboundGroupRule(), a.inbound, b.inbound, c.inbound);
    OutboundGroupLaws();
    MergeAssociates(OutboundGroupRule(), a.outbound, b.outbound, c.outbound);
  }

  // With unique keys in the queues and the gateway, it does not matter in which order three
  // models are merged, as long as they keep their places, if and only if the model in the
  // middle and the last one agree on every key that the middle has more than once in a list
  // of replaced entities. Keys may be empty, and the first model may be anything.
  lemma PlusAssociatesExactly(a: Model, b: Model, c: Model)
    requires UniqueQueues(b.queue) && UniqueGateway(b.gateway) && NestedUnique(c)
    ensures Plus(Plus(a, b), c) == Plus(a, Plus(b, c))
            <==> && Agree(ResourceRule().key, b.system.resources, c.system.resources)
                 && AgreeDomain(b.domain, c.domain) && AgreeTransaction(b.transaction, c.transaction)
                 && AgreeServices(b.service, c.service)
  {
    ReplaceAssociatesExactly(ResourceRule().key, a.system.resources, b.system.resources, c.system.resources);
    DomainAssociatesExactly(a.domain, b.domain, c.domain);
    TransactionAssociatesExactly(a.transaction, b.transaction, c.transaction);
    ServicesAssociateExactly(a.service, b.service, c.service);
    QueuesAssociate(a.queue, b.queue, c.queue);
    GatewayAssociates(a.gateway, b.gateway, c.gateway);
  }

  lemma UniqueDomainAgrees(b: Domain, c: Domain)
    requires UniqueDomain(b)
    ensures AgreeDomain(b, c)
  {
    UniqueAgrees(VariableRule().key, b.variables, c.variables);
    UniqueAgrees(DomainGroupRule().key, b.groups, c.groups);
    UniqueAgrees(EntityRule().key, b.servers, c.servers);
    UniqueAgrees(EntityRule().key, b.executables, c.executables);
  }

  // In particular when the model in the middle has every key once.
  lemma PlusAssociates(a: Model, b: Model, c: Model)
    requires UniqueKeys(b) && NestedUnique(c)
    ensures Plus(Plus(a, b), c) == Plus(a, Plus(b, c))
  {
    PlusAssociatesExactly(a, b, c);
    UniqueAgrees(ResourceRule().key, b.system.resources, c.system.resources);
    UniqueDomainAgrees(b.domain, c.domain);
    UniqueAgrees(TransactionResourceRule().key, b.transaction.resources, c.transaction.resources);
    UniqueAgrees(MappingRule().key, b.transaction.mappings, c.transaction.mappings);
    UniqueAgrees(ServiceRule().key, b.service.services, c.service.services);
    UniqueAgrees(RestrictionRule().key, b.service.restrictions, c.service.restrictions);
  }

  // ----- Idempotence -----

  predicate NamedDomain(m: Domain) {
    && Keyed(DomainGroupRule(), m.groups) && Keyed(EntityRule(), m.servers) && Keyed(EntityRule(), m.executables)
  }

  predicate NamedTransaction(m: Transaction) {
    Keyed(TransactionResourceRule(), m.resources) && Keyed(MappingRule(), m.mappings)
  }

  predicate NamedServices(m: Services) {
    Keyed(ServiceRule(), m.services) && Keyed(RestrictionRule(), m.restrictions)
  }

  predicate NamedQueueGroups(groups: seq<QueueGroup>) {
    Keyed(QueueGroupRule(), groups) && forall i :: 0 <= i < |groups| ==> Keyed(QueueRule(), groups[i].queues)
  }

  predicate NamedForwardGroups(groups: seq<ForwardGroup>) {
    && Keyed(ForwardGroupRule(), groups)
    && forall i :: 0 <= i < |groups| ==>
         Keyed(ServiceForwardRule(), groups[i].services) && Keyed(QueueForwardRule(), groups[i].queues)
  }

  predicate NamedQueues(m: Queues) { NamedQueueGroups(m.groups) && NamedForwardGroups(m.forwards) }

  predicate NamedGateway(m: Gateway) {
    Keyed(InboundGroupRule(), m.inbound) && Keyed(OutboundGroupRule(), m.outbound)
  }

  // No entity that is told apart by an alias or a name has an empty one.
  predicate Named(m: Model) {
    && NamedDomain(m.domain) && NamedTransaction(m.transaction) && NamedServices(m.service)
    && NamedQueues(m.queue) && NamedGateway(m.gateway)
  }

  lemma ReplaceIdempotent<T(!new), K>(key: T -> Option<K>, s: seq<T>)
    requires Unique(Replacing(key), s)
    ensures Merge(Replacing(key), s, s) == s <==> Keyed(Replacing(key), s)
  {
    MergeIdempotent(Replacing(key), s);
  }

  lemma DomainIdempotent(m: Domain)
    requires UniqueDomain(m)
    ensures PlusDomain(m, m) == m <==> NamedDomain(m)
  {
    ReplaceIdempotent(VariableRule().key, m.variables);
    ReplaceIdempotent(DomainGroupRule().key, m.groups);
    ReplaceIdempotent(EntityRule().key, m.servers);
    ReplaceIdempotent(EntityRule().key, m.executables);
  }

  lemma TransactionIdempotent(m: Transaction)
    requires UniqueTransaction(m)
    ensures PlusTransaction(m, m) == m <==> NamedTransaction(m)
  {
    ReplaceIdempotent(TransactionResourceRule().key, m.resources);
    ReplaceIdempotent(MappingRule().key, m.mappings);
  }

  lemma ServicesIdempotent(m: Services)
    requires UniqueServices(m)
    ensures PlusServices(m, m) == m <==> NamedServices(m)
  {
    ReplaceIdempotent(ServiceRule().key, m.services);
    ReplaceIdempotent(RestrictionRule().key, m.restrictions);
  }

  lemma QueueGroupsIdempotent(groups: seq<QueueGroup>)
    requires UniqueOk(QueueGroupRule(), groups)
    ensures Merge(QueueGroupRule(), groups, groups) == groups <==> NamedQueueGroups(groups)
  {
    QueueGroupLaws();
    MergeIdempotent(QueueGroupRule(), groups);
    forall i | 0 <= i < |groups|
      ensures QueueGroupRule().plus(groups[i], groups[i]) == groups[i] <==> Keyed(QueueRule(), groups[i].queues)
    {
      ReplaceIdempotent(QueueRule().key, groups[i].queues);
    }
  }

  lemma ForwardGroupsIdempotent(groups: seq<ForwardGroup>)
    requires UniqueOk(ForwardGroupRule(), groups)
    ensures Merge(ForwardGroupRule(), groups, groups) == groups <==> NamedForwardGroups(groups)
  {
    ForwardGroupLaws();
    MergeIdempotent(ForwardGroupRule(), groups);
    forall i | 0 <= i < |groups|
      ensures ForwardGroupRule().plus(groups[i], groups[i]) == groups[i]
        <==> Keyed(ServiceForwardRule(), groups[i].services) && Keyed(QueueForwardRule(), groups[i].queues)
    {
      ReplaceIdempotent(ServiceForwardRule().key, groups[i].services);
      ReplaceIdempotent(QueueForwardRule().key, groups[i].queues);
    }
  }

  lemma QueuesIdempotent(m: Queues)
    requires UniqueQueues(m)
    ensures PlusQueues(m, m) == m <==> NamedQueues(m)
  {
    QueueGroupsIdempotent(m.groups);
    ForwardGroupsIdempotent(m.forwards);
  }

  lemma InboundSelf(g: InboundGroup)
    requires Unique(InboundConnectionRule(), g.connections)
    ensures PlusInboundGroup(g, g) == g
  {
    InboundConnectionLaws();
    MergeIdempotent(InboundConnectionRule(), g.connections);
  }

  lemma OutboundSelf(g: OutboundGroup)
    requires Unique(OutboundConnectionRule(), g.connections)
    ensures PlusOutboundGroup(g, g) == g
  {
    OutboundConnectionLaws();
    var s := g.connections;
    forall i | 0 <= i < |s| ensures PlusOutboundConnection(s[i], s[i]) == s[i] {
      AppendUniqueSelf(s[i].services, |s[i].services|);
      AppendUniqueSelf(s[i].queues, |s[i].queues|);
      assert s[i].services[..|s[i].services|] == s[i].services && s[i].queues[..|s[i].queues|] == s[i].queues;
    }
    MergeIdempotent(OutboundConnectionRule(), s);
  }

  lemma GatewayIdempotent(m: Gateway)
    requires UniqueGateway(m)
    ensures PlusGateway(m, m) == m <==> NamedGateway(m)
  {
    InboundGroupLaws();
    MergeIdempotent(InboundGroupRule(), m.inbound);
    forall i | 0 <= i < |m.inbound| ensures InboundGroupRule().plus(m.inbound[i], m.inbound[i]) == m.inbound[i] {
      InboundSelf(m.inbound[i]);
    }
    OutboundGroupLaws();
    MergeIdempotent(OutboundGroupRule(), m.outbound);
    forall i | 0 <= i < |m.outbound| ensures OutboundGroupRule().plus(m.outbound[i], m.outbound[i]) == m.outbound[i] {
      OutboundSelf(m.outbound[i]);
    }
  }

  // Merging a model of unique keys into itself changes nothing if and only if no alias or
  // name that serves as a key is empty.
  lemma PlusIdempotent(m: Model)
    requires UniqueKeys(m)
    ensures Plus(m, m) == m <==> Named(m)
  {
    ReplaceIdempotent(ResourceRule().key, m.system.resources);
    DomainIdempotent(m.domain);
    TransactionIdempotent(m.transaction);
    ServicesIdempotent(m.service);
    QueuesIdempotent(m.queue);
    GatewayIdempotent(m.gateway);
  }

  // ----- The last writer wins -----

  predicate LastGiven(x: string, y: string, r: string) { (y != "" ==> r == y) && (y == "" ==> r == x) }

  // Single settings are those of the model merged in, as far as it gives them.
  lemma SettingsAreLastWritten(x: Model, y: Model)
    ensures var r := Plus(x, y);
            && LastGiven(x.domain.name, y.domain.name, r.domain.name)
            && LastGiven(x.transaction.log, y.transaction.log, r.transaction.log)
            && LastGiven(x.queue.note, y.queue.note, r.queue.note)
            && r.service.timeout == (if y.service.timeout.duration.Some? then y.service.timeout else x.service.timeout)
  {
  }

  // An entity that is told apart by its key alone is the one of the model merged in, if that
  // has it.
  lemma EntitiesAreLastWritten(x: Domain, y: Domain, k: string)
    requires UniqueDomain(y)
    ensures var r := PlusDomain(x, y);
            && Lookup(EntityRule(), r.servers, k)
               == Combined(EntityRule(), Lookup(EntityRule(), x.servers, k), Lookup(EntityRule(), y.servers, k))
            && (Lookup(EntityRule(), y.servers, k).Some?
                ==> Lookup(EntityRule(), r.servers, k) == Lookup(EntityRule(), y.servers, k))
            && (Lookup(EntityRule(), y.executables, k).Some?
                ==> Lookup(EntityRule(), r.executables, k) == Lookup(EntityRule(), y.executables, k))
            && (Lookup(VariableRule(), y.variables, k).Some?
                ==> Lookup(VariableRule(), r.variables, k) == Lookup(VariableRule(), y.variables, k))
  {
    MergeLooksUp(EntityRule(), x.servers, y.servers, k);
    MergeLooksUp(EntityRule(), x.executables, y.executables, k);
    MergeLooksUp(VariableRule(), x.variables, y.variables, k);
  }

  // Two levels deep: a queue of a group that both models have is that of the model merged
  // in if it has the queue, and otherwise the other's.
  lemma QueuesAreLastWritten(x: Queues, y: Queues, group: string, queue: string)
    requires UniqueQueues(y)
    ensures var g, h := Lookup(QueueGroupRule(), x.groups, group), Lookup(QueueGroupRule(), y.groups, group);
            var r := Lookup(QueueGroupRule(), PlusQueues(x, y).groups, group);
            && (h.None? ==> r == g) && (g.None? ==> r == h)
            && (g.Some? && h.Some? ==>
                  && r.Some? && r.value.queuebase == g.value.queuebase
                  && LastGiven(g.value.note, h.value.note, r.value.note)
                  && Lookup(QueueRule(), r.value.queues, queue)
                     == (var q := Lookup(QueueRule(), h.value.queues, queue);
                         if q.Some? then q else Lookup(QueueRule(), g.value.queues, queue)))
  {
    QueueGroupLaws();
    MergeLooksUp(QueueGroupRule(), x.groups, y.groups, group);
    var g, h := Lookup(QueueGroupRule(), x.groups, group), Lookup(QueueGroupRule(), y.groups, group);
    if g.Some? && h.Some? {
      var i := Find(QueueGroupRule(), y.groups, Some(group));
      assert h.value == y.groups[i] && QueueGroupRule().ok(y.groups[i]);
      MergeLooksUp(QueueRule(), g.value.queues, h.value.queues, queue);
    }
  }

  // The same through the gateway: of a connection both have, the exclusions stay and the
  // directive and the note are those merged in.
  lemma ConnectionsAreLastWritten(x: Gateway, y: Gateway, alias: string, connect: Semantic, address: string)
    requires UniqueGateway(y)
    ensures var key := (alias, connect);
            var g, h := Lookup(InboundGroupRule(), x.inbound, key), Lookup(InboundGroupRule(), y.inbound, key);
            var r := Lookup(InboundGroupRule(), PlusGateway(x, y).inbound, key);
            && (h.None? ==> r == g) && (g.None? ==> r == h)
            && (g.Some? && h.Some? ==>
                  && r.Some? && r.value.limit == h.value.limit && r.value.connect == connect
                  && var c, d := Lookup(InboundConnectionRule(), g.value.connections, address),
                                 Lookup(InboundConnectionRule(), h.value.connections, address);
                     var e := Lookup(InboundConnectionRule(), r.value.connections, address);
                     && (d.None? ==> e == c) && (c.None? ==> e == d)
                     && (c.Some? && d.Some? ==>
                           && e.Some? && e.value.exclude == c.value.exclude && e.value.discovery == d.value.discovery
                           && LastGiven(c.value.note, d.value.note, e.value.note)))
  {
    InboundGroupLaws();
    InboundConnectionLaws();
    var key := (alias, connect);
    MergeLooksUp(InboundGroupRule(), x.inbound, y.inbound, key);
    var g, h := Lookup(InboundGroupRule(), x.inbound, key), Lookup(InboundGroupRule(), y.inbound, key);
    if g.Some? && h.Some? {
      var i := Find(InboundGroupRule(), y.inbound, Some(key));
      assert h.value == y.inbound[i] && InboundGroupRule().ok(y.inbound[i]);
      MergeLooksUp(InboundConnectionRule(), g.value.connections, h.value.connections, address);
    }
  }

  // ----- Where uniqueness is needed -----

  // A key that the list in the middle has twice, and the last list says something else of,
  // makes the order of merging matter.
  lemma DuplicatesDoNotAssociate(a: seq<Mapping>, p: Mapping, q: Mapping, r: Mapping)
    requires p.alias == q.alias == r.alias != "" && q != r
    ensures var rule := MappingRule();
            Merge(rule, Merge(rule, a, [p, q]), [r]) != Merge(rule, a, Merge(rule, [p, q], [r]))
  {
    var key := MappingRule().key;
    CountSnoc(key, [], p, p.alias);
    CountSnoc(key, [p], q, p.alias);
    CountSnoc(key, [], r, p.alias);
    assert [] + [p] == [p] && [p] + [q] == [p, q] && [] + [r] == [r];
    assert !AgreeOn(key, [p, q], [r], p.alias);
    ReplaceAssociatesExactly(key, a, [p, q], [r]);
  }
}
