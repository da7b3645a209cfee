// What merging two configurations gives, said by the fields of their entities: which are the
// same, which stay, which are put together and which are new.
module ConfigFields {
  import opened Wrappers
  import opened ConfigMerge
  import opened ConfigModel
  import EnvironmentVariable

  // ----- Lists -----

  ghost predicate Once<T(!new)>(same: (T, T) -> bool, s: seq<T>) {
    forall i, j :: 0 <= i < j < |s| ==> !same(s[i], s[j])
  }

  ghost predicate Known<T(!new)>(same: (T, T) -> bool, s: seq<T>, e: T) {
    exists k :: 0 <= k < |s| && same(s[k], e)
  }

  // What is new in y, in its order.
  ghost function Missing<T(!new)>(same: (T, T) -> bool, x: seq<T>, y: seq<T>): seq<T>
    decreases |y|
  {
    if y == [] then []
    else
      var n := |y| - 1;
      Missing(same, x, y[..n]) + if Known(same, x, y[n]) then [] else [y[n]]
  }

  // What stands in the place of e: e itself, or e joined with the one that y says is the same.
  ghost predicate Stands<T(!new)>(same: (T, T) -> bool, joined: (T, T, T) -> bool, e: T, y: seq<T>, r: T) {
    && (forall k :: 0 <= k < |y| && same(e, y[k]) ==> joined(e, y[k], r))
    && ((forall k :: 0 <= k < |y| ==> !same(e, y[k])) ==> r == e)
  }

  // Everything of x in its place, joined with what y says is the same, and then what is new.
  ghost predicate Overlaid<T(!new)>(same: (T, T) -> bool, joined: (T, T, T) -> bool, x: seq<T>, y: seq<T>, r: seq<T>) {
    && Once(same, r)
    && |r| >= |x| && r[|x|..] == Missing(same, x, y)
    && forall i :: 0 <= i < |x| ==> Stands(same, joined, x[i], y, r[i])
  }

  // The later one takes the place of the earlier one.
  predicate Replaced<T(==)>(e: T, f: T, r: T) { r == f }

  ghost predicate Tells<T(!new), K>(rule: Rule<T, K>, same: (T, T) -> bool) {
    forall l, r :: same(l, r) <==> Same(rule.key(l), rule.key(r))
  }

  ghost predicate Joins<T(!new), K>(rule: Rule<T, K>, same: (T, T) -> bool, joined: (T, T, T) -> bool) {
    forall e, f :: rule.ok(e) && rule.ok(f) && same(e, f) ==> joined(e, f, rule.plus(e, f))
  }

  lemma OnceIsUnique<T(!new), K>(rule: Rule<T, K>, same: (T, T) -> bool, s: seq<T>)
    requires Tells(rule, same)
    ensures Once(same, s) <==> Unique(rule, s)
  {
    forall i, j | 0 <= i < j < |s| ensures same(s[i], s[j]) <==> Same(rule.key(s[i]), rule.key(s[j])) {
    }
  }

  lemma MissingIsNew<T(!new)>(same: (T, T) -> bool, x: seq<T>, y: seq<T>, e: T)
    ensures e in Missing(same, x, y) <==> e in y && !Known(same, x, e)
    decreases |y|
  {
    if y != [] {
      var n := |y| - 1;
      MissingIsNew(same, x, y[..n], e);
      assert y == y[..n] + [y[n]];
    }
  }

  lemma {:induction false} KeysStay<T(!new), K>(rule: Rule<T, K>, x: seq<T>, y: seq<T>, i: nat)
    requires Lawful(rule) && i < |x|
    ensures rule.key(Merge(rule, x, y)[i]) == rule.key(x[i])
    decreases |y|
  {
    if y != [] {
      var n := |y| - 1;
      KeysStay(rule, x, y[..n], i);
      PutKeys(rule, Merge(rule, x, y[..n]), y[n], i);
    }
  }

  // s is x overlaid with y, and v is to come.
  ghost predicate Ready<T(!new), K>(rule: Rule<T, K>, same: (T, T) -> bool, joined: (T, T, T) -> bool,
                                    x: seq<T>, y: seq<T>, v: T, s: seq<T>) {
    && Tells(rule, same) && Joins(rule, same, joined)
    && Once(same, x) && AllOk(rule, x) && rule.ok(v)
    && Overlaid(same, joined, x, y, s)
    && (forall i :: 0 <= i < |x| ==> rule.key(s[i]) == rule.key(x[i]))
    && (forall k :: 0 <= k < |y| ==> !same(y[k], v))
  }

  // Where v goes: to the place of the one that is the same, or to the end.
  lemma KnownPlace<T(!new), K>(rule: Rule<T, K>, same: (T, T) -> bool, joined: (T, T, T) -> bool,
                               x: seq<T>, y: seq<T>, v: T, s: seq<T>, k: nat)
    requires Ready(rule, same, joined, x, y, v, s) && k < |x| && same(x[k], v)
    ensures Find(rule, s, rule.key(v)) == k && s[k] == x[k]
  {
    assert Same(rule.key(x[k]), rule.key(v));
    forall j | 0 <= j < k ensures !Same(rule.key(s[j]), rule.key(v)) {
      assert !same(x[j], x[k]);
      assert Same(rule.key(x[j]), rule.key(x[k])) <==> same(x[j], x[k]);
    }
    FindFirst(rule, s, rule.key(v), k);
    forall j | 0 <= j < |y| ensures !same(x[k], y[j]) {
      assert !same(y[j], v);
      assert Same(rule.key(y[j]), rule.key(v)) <==> same(y[j], v);
      assert Same(rule.key(x[k]), rule.key(y[j])) <==> same(x[k], y[j]);
    }
    assert Stands(same, joined, x[k], y, s[k]);
  }

  lemma NewPlace<T(!new), K>(rule: Rule<T, K>, same: (T, T) -> bool, joined: (T, T, T) -> bool,
                             x: seq<T>, y: seq<T>, v: T, s: seq<T>)
    requires Ready(rule, same, joined, x, y, v, s) && !Known(same, x, v)
    ensures Find(rule, s, rule.key(v)) == |s|
  {
    forall j | 0 <= j < |s| ensures !Same(rule.key(s[j]), rule.key(v)) {
      if j < |x| {
        assert !same(x[j], v);
        assert Same(rule.key(x[j]), rule.key(v)) <==> same(x[j], v);
      } else {
        assert s[j] == s[|x|..][j - |x|];
        MissingIsNew(same, x, y, s[j]);
        var m :| 0 <= m < |y| && y[m] == s[j];
        assert !same(y[m], v);
        assert Same(rule.key(s[j]), rule.key(v)) <==> same(s[j], v);
      }
    }
    FindFirst(rule, s, rule.key(v), |s|);
  }

  lemma MissingNext<T(!new)>(same: (T, T) -> bool, x: seq<T>, y: seq<T>, v: T)
    ensures Missing(same, x, y + [v]) == Missing(same, x, y) + if Known(same, x, v) then [] else [v]
  {
    assert (y + [v])[..|y|] == y;
  }

  // With v to come an entity stands as it did, unless v is the same.
  lemma StandsStill<T(!new)>(same: (T, T) -> bool, joined: (T, T, T) -> bool, e: T, y: seq<T>, v: T, r: T)
    requires Stands(same, joined, e, y, r) && !same(e, v)
    ensures Stands(same, joined, e, y + [v], r)
  {
    forall k | 0 <= k < |y + [v]| && same(e, (y + [v])[k]) ensures joined(e, (y + [v])[k], r) {
      assert k < |y| && (y + [v])[k] == y[k];
    }
    if forall k :: 0 <= k < |y + [v]| ==> !same(e, (y + [v])[k]) {
      forall k | 0 <= k < |y| ensures !same(e, y[k]) {
        assert (y + [v])[k] == y[k];
      }
    }
  }

  lemma StandsJoined<T(!new)>(same: (T, T) -> bool, joined: (T, T, T) -> bool, e: T, y: seq<T>, v: T, r: T)
    requires same(e, v) && joined(e, v, r) && forall k :: 0 <= k < |y| ==> !same(e, y[k])
    ensures Stands(same, joined, e, y + [v], r)
  {
    assert (y + [v])[|y|] == v;
    forall k | 0 <= k < |y| ensures !same(e, (y + [v])[k]) {
      assert (y + [v])[k] == y[k];
    }
  }

  lemma PutOverlays<T(!new), K>(rule: Rule<T, K>, same: (T, T) -> bool, joined: (T, T, T) -> bool,
                                x: seq<T>, y: seq<T>, v: T, s: seq<T>)
    requires Ready(rule, same, joined, x, y, v, s) && Once(same, Put(rule, s, v))
    ensures Overlaid(same, joined, x, y + [v], Put(rule, s, v))
  {
    var r := Put(rule, s, v);
    MissingNext(same, x, y, v);
    if k :| 0 <= k < |x| && same(x[k], v) {
      KnownPlace(rule, same, joined, x, y, v, s, k);
      assert r == s[k := rule.plus(x[k], v)];
      assert r[|x|..] == s[|x|..];
      forall i | 0 <= i < |x| ensures Stands(same, joined, x[i], y + [v], r[i]) {
        assert Stands(same, joined, x[i], y, s[i]);
        if i == k {
          NoneBefore(rule, same, joined, x, y, v, s, k);
          StandsJoined(same, joined, x[k], y, v, r[k]);
        } else {
          OtherKey(rule, same, x, v, i, k);
          StandsStill(same, joined, x[i], y, v, r[i]);
        }
      }
    } else {
      NewPlace(rule, same, joined, x, y, v, s);
      assert r == s + [v];
      assert r[|x|..] == s[|x|..] + [v];
      forall i | 0 <= i < |x| ensures Stands(same, joined, x[i], y + [v], r[i]) {
        assert Stands(same, joined, x[i], y, s[i]);
        StandsStill(same, joined, x[i], y, v, r[i]);
      }
    }
  }

  lemma NoneBefore<T(!new), K>(rule: Rule<T, K>, same: (T, T) -> bool, joined: (T, T, T) -> bool,
                               x: seq<T>, y: seq<T>, v: T, s: seq<T>, k: nat)
    requires Ready(rule, same, joined, x, y, v, s) && k < |x| && same(x[k], v)
    ensures forall j :: 0 <= j < |y| ==> !same(x[k], y[j])
  {
    forall j | 0 <= j < |y| ensures !same(x[k], y[j]) {
      assert Same(rule.key(y[j]), rule.key(v)) <==> same(y[j], v);
      assert Same(rule.key(x[k]), rule.key(y[j])) <==> same(x[k], y[j]);
      assert Same(rule.key(x[k]), rule.key(v)) <==> same(x[k], v);
    }
  }

  lemma OtherKey<T(!new), K>(rule: Rule<T, K>, same: (T, T) -> bool, x: seq<T>, v: T, i: nat, k: nat)
    requires Tells(rule, same) && Once(same, x) && i < |x| && k < |x| && i != k && same(x[k], v)
    ensures !same(x[i], v)
  {
    assert Same(rule.key(x[i]), rule.key(v)) <==> same(x[i], v);
    assert Same(rule.key(x[k]), rule.key(v)) <==> same(x[k], v);
    assert Same(rule.key(x[i]), rule.key(x[k])) <==> same(x[i], x[k]);
    assert Same(rule.key(x[k]), rule.key(x[i])) <==> same(x[k], x[i]);
  }

  // Merging lists by a rule that tells things apart as `same` does overlays them.
  lemma {:induction false} MergeOverlays<T(!new), K>(rule: Rule<T, K>, same: (T, T) -> bool, joined: (T, T, T) -> bool,
                                                     x: seq<T>, y: seq<T>)
    requires Lawful(rule) && Tells(rule, same) && Joins(rule, same, joined)
    requires Once(same, x) && Once(same, y) && AllOk(rule, x) && AllOk(rule, y)
    ensures Overlaid(same, joined, x, y, Merge(rule, x, y))
    decreases |y|
  {
    OnceIsUnique(rule, same, x);
    MergeUnique(rule, x, y);
    OnceIsUnique(rule, same, Merge(rule, x, y));
    if y == [] {
      assert x[|x|..] == [];
    } else {
      var n := |y| - 1;
      var before, v := y[..n], y[n];
      assert y == before + [v];
      MergeOverlays(rule, same, joined, x, before);
      forall i | 0 <= i < |x| ensures rule.key(Merge(rule, x, before)[i]) == rule.key(x[i]) {
        KeysStay(rule, x, before, i);
      }
      PutOverlays(rule, same, joined, x, before, v, Merge(rule, x, before));
    }
  }

  // When the later one takes the place of the earlier one, the result holds everything of y,
  // what x has and y lacks, and no more.
  lemma OverlaidMembers<T(!new)>(same: (T, T) -> bool, x: seq<T>, y: seq<T>, r: seq<T>, e: T)
    requires Overlaid(same, Replaced, x, y, r) && Once(same, x) && Once(same, y)
    requires forall l, m :: same(l, m) ==> same(m, l)
    ensures e in r <==> e in y || (e in x && !Known(same, y, e))
  {
    MissingIsNew(same, x, y, e);
    if e in r {
      var i :| 0 <= i < |r| && r[i] == e;
      if i < |x| {
        OverlaidPlace(same, x, y, r, i);
      } else {
        assert r[|x|..][i - |x|] == e;
      }
    }
    if e in y {
      var k :| 0 <= k < |y| && y[k] == e;
      if j :| 0 <= j < |x| && same(x[j], e) {
        assert Stands(same, Replaced, x[j], y, r[j]);
        assert r[j] == e;
      } else {
        assert e in r[|x|..];
      }
    }
    if e in x && !Known(same, y, e) {
      var j :| 0 <= j < |x| && x[j] == e;
      assert Stands(same, Replaced, x[j], y, r[j]);
      assert r[j] == e;
    }
  }

  lemma OverlaidPlace<T(!new)>(same: (T, T) -> bool, x: seq<T>, y: seq<T>, r: seq<T>, i: nat)
    requires Overlaid(same, Replaced, x, y, r) && i < |x|
    requires forall l, m :: same(l, m) ==> same(m, l)
    ensures r[i] in y || (r[i] in x && !Known(same, y, r[i]))
  {
    assert Stands(same, Replaced, x[i], y, r[i]);
    if k :| 0 <= k < |y| && same(x[i], y[k]) {
      assert r[i] == y[k];
    } else {
      assert r[i] == x[i];
    }
  }

  // ----- Which entities are the same -----

  // Resources, variables and connections may have an empty key; what has an alias or a name
  // is never the same as anything when that is empty.
  predicate SameResource(l: Resource, r: Resource) { l.key == r.key }
  predicate SameVariable(l: string, r: string) { EnvironmentVariable.Name(l) == EnvironmentVariable.Name(r) }
  predicate SameDomainGroup(l: DomainGroup, r: DomainGroup) { l.name == r.name != "" }
  predicate SameEntity(l: Entity, r: Entity) { l.alias == r.alias != "" }
  predicate SameTransactionResource(l: TransactionResource, r: TransactionResource) { l.name == r.name != "" }
  predicate SameMapping(l: Mapping, r: Mapping) { l.alias == r.alias != "" }
  predicate SameService(l: Service, r: Service) { l.name == r.name != "" }
  predicate SameRestriction(l: Restriction, r: Restriction) { l.alias == r.alias != "" }
  predicate SameQueue(l: Queue, r: Queue) { l.name == r.name != "" }
  predicate SameQueueGroup(l: QueueGroup, r: QueueGroup) { l.alias == r.alias != "" }
  predicate SameServiceForward(l: ServiceForward, r: ServiceForward) { l.alias == r.alias != "" }
  predicate SameQueueForward(l: QueueForward, r: QueueForward) { l.alias == r.alias != "" }
  predicate SameForwardGroup(l: ForwardGroup, r: ForwardGroup) { l.alias == r.alias != "" }
  predicate SameInboundConnection(l: InboundConnection, r: InboundConnection) { l.address == r.address }
  predicate SameOutboundConnection(l: OutboundConnection, r: OutboundConnection) { l.address == r.address }
  predicate SameInboundGroup(l: InboundGroup, r: InboundGroup) { l.alias == r.alias != "" && l.connect == r.connect }
  predicate SameOutboundGroup(l: OutboundGroup, r: OutboundGroup) { l.alias == r.alias != "" && l.connect == r.connect }

  // ----- How entities are joined -----

  ghost predicate QueueGroupsJoined(e: QueueGroup, f: QueueGroup, r: QueueGroup) {
    && r.alias == e.alias && r.queuebase == e.queuebase && LastGiven(e.note, f.note, r.note)
    && Overlaid(SameQueue, Replaced, e.queues, f.queues, r.queues)
  }

  ghost predicate ForwardGroupsJoined(e: ForwardGroup, f: ForwardGroup, r: ForwardGroup) {
    && r.alias == e.alias && LastGiven(e.note, f.note, r.note)
    && Overlaid(SameServiceForward, Replaced, e.services, f.services, r.services)
    && Overlaid(SameQueueForward, Replaced, e.queues, f.queues, r.queues)
  }

  ghost predicate InboundConnectionsJoined(e: InboundConnection, f: InboundConnection, r: InboundConnection) {
    && r.address == e.address && r.exclude == e.exclude && r.discovery == f.discovery
    && LastGiven(e.note, f.note, r.note)
  }

  ghost predicate InboundGroupsJoined(e: InboundGroup, f: InboundGroup, r: InboundGroup) {
    && r.alias == e.alias && r.connect == f.connect && r.limit == f.limit && LastGiven(e.note, f.note, r.note)
    && Overlaid(SameInboundConnection, InboundConnectionsJoined, e.connections, f.connections, r.connections)
  }

  // x as it is, and then what y has besides, once.
  ghost predicate Appended(x: seq<string>, y: seq<string>, r: seq<string>) {
    && |r| >= |x| && r[..|x|] == x
    && (forall v :: v in r <==> v in x || v in y)
    && (forall i, j :: 0 <= i < j < |r| && |x| <= j ==> r[i] != r[j])
  }

  ghost predicate OutboundConnectionsJoined(e: OutboundConnection, f: OutboundConnection, r: OutboundConnection) {
    && r.address == e.address && LastGiven(e.note, f.note, r.note)
    && Appended(e.services, f.services, r.services) && Appended(e.queues, f.queues, r.queues)
  }

  ghost predicate OutboundGroupsJoined(e: OutboundGroup, f: OutboundGroup, r: OutboundGroup) {
    && r.alias == e.alias && r.connect == f.connect && LastGiven(e.note, f.note, r.note)
    && Overlaid(SameOutboundConnection, OutboundConnectionsJoined, e.connections, f.connections, r.connections)
  }

  // ----- The components, by their fields -----

  lemma {:induction false} AppendUniqueAppends(x: seq<string>, y: seq<string>)
    ensures Appended(x, y, AppendUnique(x, y))
    decreases |y|
  {
    AppendUniqueHas(x, y);
    if y == [] {
      assert x[..|x|] == x;
    } else {
      AppendUniqueAppends(x, y[..|y| - 1]);
    }
  }

  ghost predicate OnceSystem(m: System) { Once(SameResource, m.resources) }

  lemma SystemByFields(x: System, y: System)
    requires OnceSystem(x) && OnceSystem(y)
    ensures Overlaid(SameResource, Replaced, x.resources, y.resources, PlusSystem(x, y).resources)
  {
    MergeOverlays(ResourceRule(), SameResource, Replaced, x.resources, y.resources);
  }

  ghost predicate OnceDomain(m: Domain) {
    && Once(SameVariable, m.variables) && Once(SameDomainGroup, m.groups)
    && Once(SameEntity, m.servers) && Once(SameEntity, m.executables)
  }

  // In every list of the domain what is the same is replaced in its place, what is new comes
  // behind, and all else stays.
  lemma DomainByFields(x: Domain, y: Domain)
    requires OnceDomain(x) && OnceDomain(y)
    ensures var r := PlusDomain(x, y);
            && LastGiven(x.name, y.name, r.name)
            && Overlaid(SameVariable, Replaced, x.variables, y.variables, r.variables)
            && Overlaid(SameDomainGroup, Replaced, x.groups, y.groups, r.groups)
            && Overlaid(SameEntity, Replaced, x.servers, y.servers, r.servers)
            && Overlaid(SameEntity, Replaced, x.executables, y.executables, r.executables)
  {
    MergeOverlays(VariableRule(), SameVariable, Replaced, x.variables, y.variables);
    MergeOverlays(DomainGroupRule(), SameDomainGroup, Replaced, x.groups, y.groups);
    MergeOverlays(EntityRule(), SameEntity, Replaced, x.servers, y.servers);
    MergeOverlays(EntityRule(), SameEntity, Replaced, x.executables, y.executables);
  }

  // So there is each alias once, and there is what y has and what x has under an alias that
  // y lacks.
  lemma EntitiesByAlias(x: seq<Entity>, y: seq<Entity>, r: seq<Entity>, e: Entity)
    requires Once(SameEntity, x) && Once(SameEntity, y) && Overlaid(SameEntity, Replaced, x, y, r)
    ensures forall i, j :: 0 <= i < j < |r| && r[i].alias != "" ==> r[i].alias != r[j].alias
    ensures e in r <==> e in y || (e in x && forall f :: f in y && f.alias != "" ==> f.alias != e.alias)
  {
    forall i, j | 0 <= i < j < |r| && r[i].alias != "" ensures r[i].alias != r[j].alias {
      assert !SameEntity(r[i], r[j]);
    }
    OverlaidMembers(SameEntity, x, y, r, e);
    KnownByAlias(y, e);
  }

  lemma KnownByAlias(y: seq<Entity>, e: Entity)
    ensures Known(SameEntity, y, e) <==> exists f :: f in y && f.alias != "" && f.alias == e.alias
  {
    if f :| f in y && f.alias != "" && f.alias == e.alias {
      var k :| 0 <= k < |y| && y[k] == f;
      assert SameEntity(y[k], e);
    }
  }

  lemma ServersByAlias(x: Domain, y: Domain, e: Entity)
    requires OnceDomain(x) && OnceDomain(y)
    ensures var r := PlusDomain(x, y).servers;
            && (forall i, j :: 0 <= i < j < |r| && r[i].alias != "" ==> r[i].alias != r[j].alias)
            && (e in r <==> e in y.servers
                            || (e in x.servers && forall f :: f in y.servers && f.alias != "" ==> f.alias != e.alias))
  {
    DomainByFields(x, y);
    EntitiesByAlias(x.servers, y.servers, PlusDomain(x, y).servers, e);
  }

  lemma ExecutablesByAlias(x: Domain, y: Domain, e: Entity)
    requires OnceDomain(x) && OnceDomain(y)
    ensures var r := PlusDomain(x, y).executables;
            && (forall i, j :: 0 <= i < j < |r| && r[i].alias != "" ==> r[i].alias != r[j].alias)
            && (e in r <==> e in y.executables
                            || (e in x.executables
                                && forall f :: f in y.executables && f.alias != "" ==> f.alias != e.alias))
  {
    DomainByFields(x, y);
    EntitiesByAlias(x.executables, y.executables, PlusDomain(x, y).executables, e);
  }

  ghost predicate OnceTransaction(m: Transaction) {
    Once(SameTransactionResource, m.resources) && Once(SameMapping, m.mappings)
  }

  lemma TransactionByFields(x: Transaction, y: Transaction)
    requires OnceTransaction(x) && OnceTransaction(y)
    ensures var r := PlusTransaction(x, y);
            && LastGiven(x.log, y.log, r.log)
            && Overlaid(SameTransactionResource, Replaced, x.resources, y.resources, r.resources)
            && Overlaid(SameMapping, Replaced, x.mappings, y.mappings, r.mappings)
  {
    MergeOverlays(TransactionResourceRule(), SameTransactionResource, Replaced, x.resources, y.resources);
    MergeOverlays(MappingRule(), SameMapping, Replaced, x.mappings, y.mappings);
  }

  ghost predicate OnceServices(m: Services) {
    Once(SameService, m.services) && Once(SameRestriction, m.restrictions)
  }

  lemma ServicesByFields(x: Services, y: Services)
    requires OnceServices(x) && OnceServices(y)
    ensures var r := PlusServices(x, y);
            && r.timeout == (if y.timeout.duration.Some? then y.timeout else x.timeout)
            && Overlaid(SameService, Replaced, x.services, y.services, r.services)
            && Overlaid(SameRestriction, Replaced, x.restrictions, y.restrictions, r.restrictions)
  {
    MergeOverlays(ServiceRule(), SameService, Replaced, x.services, y.services);
    MergeOverlays(RestrictionRule(), SameRestriction, Replaced, x.restrictions, y.restrictions);
  }

  ghost predicate OnceQueues(m: Queues) {
    && Once(SameQueueGroup, m.groups) && Once(SameForwardGroup, m.forwards)
    && (forall i :: 0 <= i < |m.groups| ==> Once(SameQueue, m.groups[i].queues))
    && (forall i :: 0 <= i < |m.forwards| ==>
          Once(SameServiceForward, m.forwards[i].services) && Once(SameQueueForward, m.forwards[i].queues))
  }

  lemma QueueGroupsJoin(e: QueueGroup, f: QueueGroup)
    requires Once(SameQueue, e.queues) && Once(SameQueue, f.queues)
    ensures QueueGroupsJoined(e, f, PlusQueueGroup(e, f))
  {
    MergeOverlays(QueueRule(), SameQueue, Replaced, e.queues, f.queues);
  }

  lemma ForwardGroupsJoin(e: ForwardGroup, f: ForwardGroup)
    requires Once(SameServiceForward, e.services) && Once(SameServiceForward, f.services)
    requires Once(SameQueueForward, e.queues) && Once(SameQueueForward, f.queues)
    ensures ForwardGroupsJoined(e, f, PlusForwardGroup(e, f))
  {
    MergeOverlays(ServiceForwardRule(), SameServiceForward, Replaced, e.services, f.services);
    MergeOverlays(QueueForwardRule(), SameQueueForward, Replaced, e.queues, f.queues);
  }

  lemma QueueGroupsMerge(x: seq<QueueGroup>, y: seq<QueueGroup>)
    requires Once(SameQueueGroup, x) && Once(SameQueueGroup, y)
    requires forall i :: 0 <= i < |x| ==> Once(SameQueue, x[i].queues)
    requires forall i :: 0 <= i < |y| ==> Once(SameQueue, y[i].queues)
    ensures Overlaid(SameQueueGroup, QueueGroupsJoined, x, y, Merge(QueueGroupRule(), x, y))
  {
    var rule := QueueGroupRule();
    QueueGroupLaws();
    forall g ensures rule.ok(g) <==> Once(SameQueue, g.queues) { OnceIsUnique(QueueRule(), SameQueue, g.queues); }
    forall e, f | rule.ok(e) && rule.ok(f) ensures QueueGroupsJoined(e, f, rule.plus(e, f)) { QueueGroupsJoin(e, f); }
    MergeOverlays(rule, SameQueueGroup, QueueGroupsJoined, x, y);
  }

  lemma ForwardGroupsMerge(x: seq<ForwardGroup>, y: seq<ForwardGroup>)
    requires Once(SameForwardGroup, x) && Once(SameForwardGroup, y)
    requires forall i :: 0 <= i < |x| ==> Once(SameServiceForward, x[i].services) && Once(SameQueueForward, x[i].queues)
    requires forall i :: 0 <= i < |y| ==> Once(SameServiceForward, y[i].services) && Once(SameQueueForward, y[i].queues)
    ensures Overlaid(SameForwardGroup, ForwardGroupsJoined, x, y, Merge(ForwardGroupRule(), x, y))
  {
    var rule := ForwardGroupRule();
    ForwardGroupLaws();
    forall g ensures rule.ok(g) <==> Once(SameServiceForward, g.services) && Once(SameQueueForward, g.queues) {
      OnceIsUnique(ServiceForwardRule(), SameServiceForward, g.services);
      OnceIsUnique(QueueForwardRule(), SameQueueForward, g.queues);
    }
    forall e, f | rule.ok(e) && rule.ok(f) ensures ForwardGroupsJoined(e, f, rule.plus(e, f)) {
      ForwardGroupsJoin(e, f);
    }
    MergeOverlays(rule, SameForwardGroup, ForwardGroupsJoined, x, y);
  }

  // Groups with one alias are joined: the queues of the later one replace those of the same
  // name, and its note counts if it gives one.
  lemma QueuesByFields(x: Queues, y: Queues)
    requires OnceQueues(x) && OnceQueues(y)
    ensures var r := PlusQueues(x, y);
            && LastGiven(x.note, y.note, r.note)
            && Overlaid(SameQueueGroup, QueueGroupsJoined, x.groups, y.groups, r.groups)
            && Overlaid(SameForwardGroup, ForwardGroupsJoined, x.forwards, y.forwards, r.forwards)
  {
    QueueGroupsMerge(x.groups, y.groups);
    ForwardGroupsMerge(x.forwards, y.forwards);
  }

  ghost predicate OnceGateway(m: Gateway) {
    && Once(SameInboundGroup, m.inbound) && Once(SameOutboundGroup, m.outbound)
    && (forall i :: 0 <= i < |m.inbound| ==> Once(SameInboundConnection, m.inbound[i].connections))
    && (forall i :: 0 <= i < |m.outbound| ==> Once(SameOutboundConnection, m.outbound[i].connections))
  }

  lemma InboundGroupsJoin(e: InboundGroup, f: InboundGroup)
    requires Once(SameInboundConnection, e.connections) && Once(SameInboundConnection, f.connections)
    ensures InboundGroupsJoined(e, f, PlusInboundGroup(e, f))
  {
    InboundConnectionLaws();
    MergeOverlays(InboundConnectionRule(), SameInboundConnection, InboundConnectionsJoined,
                  e.connections, f.connections);
  }

  lemma OutboundGroupsJoin(e: OutboundGroup, f: OutboundGroup)
    requires Once(SameOutboundConnection, e.connections) && Once(SameOutboundConnection, f.connections)
    ensures OutboundGroupsJoined(e, f, PlusOutboundGroup(e, f))
  {
    OutboundConnectionLaws();
    var rule := OutboundConnectionRule();
    forall c, d | SameOutboundConnection(c, d) ensures OutboundConnectionsJoined(c, d, rule.plus(c, d)) {
      AppendUniqueAppends(c.services, d.services);
      AppendUniqueAppends(c.queues, d.queues);
    }
    MergeOverlays(rule, SameOutboundConnection, OutboundConnectionsJoined, e.connections, f.connections);
  }

  lemma InboundGroupsMerge(x: seq<InboundGroup>, y: seq<InboundGroup>)
    requires Once(SameInboundGroup, x) && Once(SameInboundGroup, y)
    requires forall i :: 0 <= i < |x| ==> Once(SameInboundConnection, x[i].connections)
    requires forall i :: 0 <= i < |y| ==> Once(SameInboundConnection, y[i].connections)
    ensures Overlaid(SameInboundGroup, InboundGroupsJoined, x, y, Merge(InboundGroupRule(), x, y))
  {
    var rule := InboundGroupRule();
    InboundGroupLaws();
    forall g ensures rule.ok(g) <==> Once(SameInboundConnection, g.connections) {
      OnceIsUnique(InboundConnectionRule(), SameInboundConnection, g.connections);
    }
    forall e, f | rule.ok(e) && rule.ok(f) ensures InboundGroupsJoined(e, f, rule.plus(e, f)) {
      InboundGroupsJoin(e, f);
    }
    MergeOverlays(rule, SameInboundGroup, InboundGroupsJoined, x, y);
  }

  lemma OutboundGroupsMerge(x: seq<OutboundGroup>, y: seq<OutboundGroup>)
    requires Once(SameOutboundGroup, x) && Once(SameOutboundGroup, y)
    requires forall i :: 0 <= i < |x| ==> Once(SameOutboundConnection, x[i].connections)
    requires forall i :: 0 <= i < |y| ==> Once(SameOutboundConnection, y[i].connections)
    ensures Overlaid(SameOutboundGroup, OutboundGroupsJoined, x, y, Merge(OutboundGroupRule(), x, y))
  {
    var rule := OutboundGroupRule();
    OutboundGroupLaws();
    forall g ensures rule.ok(g) <==> Once(SameOutboundConnection, g.connections) {
      OnceIsUnique(OutboundConnectionRule(), SameOutboundConnection, g.connections);
    }
    forall e, f | rule.ok(e) && rule.ok(f) ensures OutboundGroupsJoined(e, f, rule.plus(e, f)) {
      OutboundGroupsJoin(e, f);
    }
    MergeOverlays(rule, SameOutboundGroup, OutboundGroupsJoined, x, y);
  }

  // Groups with one alias and one direction are joined, and so are their connections with one
  // address.
  lemma GatewayByFields(x: Gateway, y: Gateway)
    requires OnceGateway(x) && OnceGateway(y)
    ensures var r := PlusGateway(x, y);
            && Overlaid(SameInboundGroup, InboundGroupsJoined, x.inbound, y.inbound, r.inbound)
            && Overlaid(SameOutboundGroup, OutboundGroupsJoined, x.outbound, y.outbound, r.outbound)
  {
    InboundGroupsMerge(x.inbound, y.inbound);
    OutboundGroupsMerge(x.outbound, y.outbound);
  }
}
