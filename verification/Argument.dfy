// The command line: a list of arguments is cut into keys, each with the values up to the
// next key, and every key goes to an option or a group that has it at that time.
module Argument {
  import opened Division
  import opened Sequences
  import opened Wrappers

  // ----- Options and groups -----

  // How many there may be: between min and max, in steps from min when step is not 0.
  datatype Cardinality = Cardinality(min: nat, max: nat, step: nat) {
    predicate Accepts(n: nat) { min <= n <= max && (step == 0 || (n - min) % step == 0) }
  }

  datatype Action = Action(key: string, values: seq<string>)

  // What has been assigned is kept, in order. A group takes one assignment, which opens it;
  // from then on its content takes what it is given.
  datatype Handler =
    | Option(keys: seq<string>, uses: Cardinality, arity: Cardinality, given: seq<Action>)
    | Group(keys: seq<string>, uses: Cardinality, arity: Cardinality, content: seq<Handler>, opening: Option<Action>)

  datatype Error = UnknownKey | WrongNumberOfUses | WrongNumberOfValues

  // Whether a key can be given to the handler now.
  predicate Has(h: Handler, key: string)
    decreases h
  {
    match h
    case Option(keys, _, _, _) => key in keys
    case Group(keys, _, _, content, opening) => if opening.Some? then HasAny(content, key) else key in keys
  }

  predicate HasAny(hs: seq<Handler>, key: string)
    decreases hs
  {
    hs != [] && (Has(hs[0], key) || HasAny(hs[1..], key))
  }

  // Whether a key ends the values of the key before it.
  predicate Next(h: Handler, key: string) {
    match h
    case Option(keys, _, _, _) => key in keys
    case Group(keys, _, _, content, _) => HasAny(content, key) || key in keys
  }

  predicate NextAny(hs: seq<Handler>, key: string)
    decreases |hs|
  {
    hs != [] && (Next(hs[0], key) || NextAny(hs[1..], key))
  }

  // ----- What a key belongs to -----

  // A way into the list: an index, then one in the content of the group there, and so on.
  predicate IsWay(hs: seq<Handler>, way: seq<nat>)
    decreases |way|
  {
    && way != [] && way[0] < |hs|
    && (|way| > 1 ==> hs[way[0]].Group? && IsWay(hs[way[0]].content, way[1..]))
  }

  // The handlers along a way.
  function Along(hs: seq<Handler>, way: seq<nat>): (along: seq<Handler>)
    requires IsWay(hs, way)
    ensures |along| == |way|
    decreases |way|
  {
    [hs[way[0]]] + if |way| == 1 then [] else Along(hs[way[0]].content, way[1..])
  }

  predicate IsOpen(h: Handler) { h.Group? && h.opening.Some? }

  // The way leads through open groups to an option, or to a group that is closed, which has
  // the key.
  predicate LeadsTo(hs: seq<Handler>, way: seq<nat>, key: string)
    requires IsWay(hs, way)
  {
    var along := Along(hs, way);
    var end := |along| - 1;
    && (forall i :: 0 <= i < end ==> IsOpen(along[i]))
    && !IsOpen(along[end]) && key in along[end].keys
  }

  ghost predicate Reachable(hs: seq<Handler>, key: string) {
    exists way :: IsWay(hs, way) && LeadsTo(hs, way, key)
  }

  lemma {:induction false} HasIsReachable(hs: seq<Handler>, key: string)
    ensures HasAny(hs, key) ==> Reachable(hs, key)
    decreases hs
  {
    if HasAny(hs, key) {
      if Has(hs[0], key) {
        if IsOpen(hs[0]) {
          HasIsReachable(hs[0].content, key);
          var way :| IsWay(hs[0].content, way) && LeadsTo(hs[0].content, way, key);
          WayInto(hs, 0, way, [0] + way, key);
        } else {
          assert IsWay(hs, [0]) && Along(hs, [0]) == [hs[0]];
          assert LeadsTo(hs, [0], key);
        }
      } else {
        HasIsReachable(hs[1..], key);
        var way :| IsWay(hs[1..], way) && LeadsTo(hs[1..], way, key);
        OneFurther(hs, way, key);
      }
    }
  }

  // A way into the content of an open group is one into the list, through the group.
  lemma WayInto(hs: seq<Handler>, i: nat, inner: seq<nat>, way: seq<nat>, key: string)
    requires i < |hs| && IsOpen(hs[i]) && IsWay(hs[i].content, inner) && LeadsTo(hs[i].content, inner, key)
    requires way == [i] + inner
    ensures way[1..] == inner && IsWay(hs, way) && LeadsTo(hs, way, key)
  {
    assert way[1..] == inner && IsWay(hs, way);
    assert Along(hs, way) == [hs[i]] + Along(hs[i].content, inner);
  }

  lemma OneFurther(hs: seq<Handler>, way: seq<nat>, key: string)
    requires hs != [] && IsWay(hs[1..], way) && LeadsTo(hs[1..], way, key)
    ensures Reachable(hs, key)
  {
    var further := [way[0] + 1] + way[1..];
    assert further[1..] == way[1..] && hs[further[0]] == hs[1..][way[0]];
    assert IsWay(hs, further) && Along(hs, further) == Along(hs[1..], way);
    assert LeadsTo(hs, further, key);
  }

  lemma {:induction false} ReachableIsHad(hs: seq<Handler>, way: seq<nat>, key: string)
    requires IsWay(hs, way) && LeadsTo(hs, way, key)
    ensures Has(hs[way[0]], key) && HasAny(hs, key)
    decreases |way|
  {
    var h, along := hs[way[0]], Along(hs, way);
    if |way| > 1 {
      assert along[0] == h && along[1..] == Along(h.content, way[1..]);
      assert forall i :: 0 <= i < |way| - 1 ==> along[1..][i] == along[i + 1];
      ReachableIsHad(h.content, way[1..], key);
    }
    HasMember(hs, way[0], key);
  }

  lemma {:induction false} HasMember(hs: seq<Handler>, i: nat, key: string)
    requires i < |hs| && Has(hs[i], key)
    ensures HasAny(hs, key)
    decreases |hs|
  {
    if i > 0 { HasMember(hs[1..], i - 1, key); }
  }

  // A key can be given if and only if a way through open groups leads to it.
  lemma HasExactly(hs: seq<Handler>, key: string)
    ensures HasAny(hs, key) <==> Reachable(hs, key)
  {
    HasIsReachable(hs, key);
    if way :| IsWay(hs, way) && LeadsTo(hs, way, key) { ReachableIsHad(hs, way, key); }
  }

  // What ends the values of a key: a key of an option or of a group, open or not, of the
  // outermost list, and whatever can be reached in the content of such a group, as if it
  // were open.
  ghost predicate EndsValues(hs: seq<Handler>, v: string) {
    exists h :: h in hs && (v in h.keys || (h.Group? && Reachable(h.content, v)))
  }

  lemma {:induction false} NextExactly(hs: seq<Handler>, v: string)
    ensures NextAny(hs, v) <==> EndsValues(hs, v)
    decreases |hs|
  {
    if hs != [] {
      NextExactly(hs[1..], v);
      if hs[0].Group? { HasExactly(hs[0].content, v); }
      assert hs == [hs[0]] + hs[1..];
    }
  }

  // The first handler that has the key, or the end.
  function Find(hs: seq<Handler>, key: string): (i: nat)
    ensures i <= |hs|
    ensures i < |hs| <==> HasAny(hs, key)
    ensures i < |hs| ==> Has(hs[i], key)
    decreases |hs|
  {
    if hs == [] || Has(hs[0], key) then 0 else 1 + Find(hs[1..], key)
  }

  // ----- Assigning -----

  // The handler that is found comes first, what was before it comes last.
  function Rotated<T>(s: seq<T>, i: nat): (r: seq<T>)
    requires i <= |s|
    ensures |r| == |s|
  {
    s[i..] + s[..i]
  }

  function Assigned(hs: seq<Handler>, action: Action): Result<seq<Handler>, Error>
    requires HasAny(hs, action.key)
    decreases hs, 1
  {
    var i := Find(hs, action.key);
    var r := AssignedOne(hs[i], action);
    if r.Err? then Err(r.error) else Ok([r.value] + hs[i + 1..] + hs[..i])
  }

  function AssignedOne(h: Handler, action: Action): Result<Handler, Error>
    requires Has(h, action.key)
    decreases h, 0
  {
    match h
    case Option(_, uses, arity, given) =>
      if !uses.Accepts(|given| + 1) then Err(WrongNumberOfUses)
      else if !arity.Accepts(|action.values|) then Err(WrongNumberOfValues)
      else Ok(h.(given := given + [action]))
    case Group(_, _, arity, content, opening) =>
      if opening.Some? then
        var r := Assigned(content, action);
        if r.Err? then Err(r.error) else Ok(h.(content := r.value))
      else if !arity.Accepts(|action.values|) then Err(WrongNumberOfValues)
      else Ok(h.(opening := Some(action)))
  }

  method Assign(hs: seq<Handler>, action: Action) returns (r: Result<seq<Handler>, Error>)
    requires HasAny(hs, action.key)
    ensures r == Assigned(hs, action)
    decreases hs, 1
  {
    var found := 0;
    while !Has(hs[found], action.key)
      invariant 0 <= found < |hs| && HasAny(hs[found..], action.key)
      invariant Find(hs, action.key) == found + Find(hs[found..], action.key)
      decreases |hs| - found
    {
      assert hs[found..][1..] == hs[found + 1..];
      found := found + 1;
    }
    var rotated := hs[found..] + hs[..found];
    var one := AssignOne(rotated[0], action);
    if one.Err? { return Err(one.error); }
    assert [one.value] + hs[found + 1..] + hs[..found] == rotated[0 := one.value];
    return Ok(rotated[0 := one.value]);
  }

  method AssignOne(h: Handler, action: Action) returns (r: Result<Handler, Error>)
    requires Has(h, action.key)
    ensures r == AssignedOne(h, action)
    decreases h, 0
  {
    if h.Option? {
      if !h.uses.Accepts(|h.given| + 1) { return Err(WrongNumberOfUses); }
      if !h.arity.Accepts(|action.values|) { return Err(WrongNumberOfValues); }
      return Ok(h.(given := h.given + [action]));
    }
    if h.opening.None? {
      if !h.arity.Accepts(|action.values|) { return Err(WrongNumberOfValues); }
      return Ok(h.(opening := Some(action)));
    }
    var content := Assign(h.content, action);
    if content.Err? { return Err(content.error); }
    return Ok(h.(content := content.value));
  }

  // ----- Traversing -----

  // How many of the arguments come before the next key.
  function Span(hs: seq<Handler>, arguments: seq<string>): (n: nat)
    ensures n <= |arguments|
    decreases |arguments|
  {
    if arguments == [] || NextAny(hs, arguments[0]) then 0 else 1 + Span(hs, arguments[1..])
  }

  datatype Outcome = Outcome(handlers: seq<Handler>, actions: seq<Action>)

  function Traversed(hs: seq<Handler>, arguments: seq<string>): Result<Outcome, Error>
    decreases |arguments|
  {
    if arguments == [] then Ok(Outcome(hs, []))
    else
      var key, rest := arguments[0], arguments[1..];
      if !HasAny(hs, key) then Err(UnknownKey)
      else
        var n := Span(hs, rest);
        var action := Action(key, rest[..n]);
        var r := Assigned(hs, action);
        if r.Err? then Err(r.error)
        else
          var later := Traversed(r.value, rest[n..]);
          if later.Err? then later
          else Ok(Outcome(later.value.handlers, [action] + later.value.actions))
  }

  class Holder {
    var handlers: seq<Handler>

    constructor (hs: seq<Handler>)
      ensures handlers == hs
    {
      handlers := hs;
    }

    // The values of a key: everything before the next key.
    method CountValues(rest: seq<string>) returns (n: nat)
      ensures n == Span(handlers, rest)
      ensures n <= |rest| && (forall i :: 0 <= i < n ==> !EndsValues(handlers, rest[i]))
      ensures n < |rest| ==> EndsValues(handlers, rest[n])
    {
      n := 0;
      while n < |rest| && !NextAny(handlers, rest[n])
        invariant n <= |rest| && Span(handlers, rest) == n + Span(handlers, rest[n..])
      {
        assert rest[n..][1..] == rest[n + 1..];
        n := n + 1;
      }
      SpanExactly(handlers, rest);
    }

    method Traverse(arguments: seq<string>) returns (r: Result<seq<Action>, Error>)
      modifies this
      ensures var t := Traversed(old(handlers), arguments);
              if t.Err? then r == Err(t.error)
              else r == Ok(t.value.actions) && handlers == t.value.handlers
      ensures r.Ok? ==> CutAtKeys(old(handlers), r.value) && Flattened(r.value) == arguments
    {
      var rest := arguments;
      var actions := [];
      PrecededNone(Traversed(handlers, arguments));
      while rest != []
        invariant Traversed(old(handlers), arguments) == Preceded(actions, Traversed(handlers, rest))
        decreases |rest|
      {
        var key := rest[0];
        if !HasAny(handlers, key) { return Err(UnknownKey); }
        var n := CountValues(rest[1..]);
        var action := Action(key, rest[1..][..n]);
        TraversedNext(handlers, rest, action, rest[1..][n..]);
        var result := Assign(handlers, action);
        if result.Err? { return Err(result.error); }
        PrecededNext(actions, action, Traversed(result.value, rest[1..][n..]));
        handlers := result.value;
        actions := actions + [action];
        rest := rest[1..][n..];
      }
      assert actions + [] == actions;
      TraversalCutsAtKeys(old(handlers), arguments);
      TraversalCoversArguments(old(handlers), arguments);
      return Ok(actions);
    }
  }

  lemma TraversedNext(hs: seq<Handler>, arguments: seq<string>, action: Action, rest: seq<string>)
    requires arguments != [] && action.key == arguments[0] && HasAny(hs, action.key)
    requires var n := Span(hs, arguments[1..]); action.values == arguments[1..][..n] && rest == arguments[1..][n..]
    ensures var r := Assigned(hs, action);
            Traversed(hs, arguments) == if r.Err? then Err(r.error) else Preceded([action], Traversed(r.value, rest))
  {
  }

  lemma PrecededNone(r: Result<Outcome, Error>)
    ensures Preceded([], r) == r
  {
    if r.Ok? { assert [] + r.value.actions == r.value.actions; }
  }

  function Preceded(actions: seq<Action>, r: Result<Outcome, Error>): Result<Outcome, Error> {
    if r.Err? then r else Ok(Outcome(r.value.handlers, actions + r.value.actions))
  }

  lemma PrecededNext(actions: seq<Action>, action: Action, later: Result<Outcome, Error>)
    ensures Preceded(actions, Preceded([action], later)) == Preceded(actions + [action], later)
  {
    if later.Ok? {
      assert actions + ([action] + later.value.actions) == actions + [action] + later.value.actions;
    }
  }

  // ----- What a traversal without error has done -----

  function Flattened(actions: seq<Action>): seq<string> {
    if actions == [] then [] else [actions[0].key] + actions[0].values + Flattened(actions[1..])
  }

  lemma FlattenedNext(action: Action, later: seq<Action>)
    ensures Flattened([action] + later) == [action.key] + action.values + Flattened(later)
  {
    assert ([action] + later)[1..] == later;
  }

  lemma Cut(arguments: seq<string>, n: nat)
    requires arguments != [] && n <= |arguments| - 1
    ensures [arguments[0]] + arguments[1..][..n] + arguments[1..][n..] == arguments
  {
  }

  // The keys and their values, joined, are the arguments: none is lost, none is used twice.
  lemma {:induction false} TraversalCoversArguments(hs: seq<Handler>, arguments: seq<string>)
    requires Traversed(hs, arguments).Ok?
    ensures Flattened(Traversed(hs, arguments).value.actions) == arguments
    decreases |arguments|
  {
    if arguments != [] {
      var n := Span(hs, arguments[1..]);
      var action := Action(arguments[0], arguments[1..][..n]);
      var rest := arguments[1..][n..];
      TraversedNext(hs, arguments, action, rest);
      var later := Assigned(hs, action).value;
      TraversalCoversArguments(later, rest);
      FlattenedNext(action, Traversed(later, rest).value.actions);
      Cut(arguments, n);
    }
  }

  // The actions are possible one after another: each key can be given to a handler in the
  // state the actions before it have led to, and none of its values ends values there.
  ghost predicate Proper(hs: seq<Handler>, actions: seq<Action>, end: seq<Handler>)
    decreases |actions|
  {
    if actions == [] then hs == end
    else
      && HasAny(hs, actions[0].key)
      && (forall v :: v in actions[0].values ==> !NextAny(hs, v))
      && Assigned(hs, actions[0]).Ok?
      && Proper(Assigned(hs, actions[0]).value, actions[1..], end)
  }

  lemma {:induction false} SpanStops(hs: seq<Handler>, arguments: seq<string>)
    ensures forall v :: v in arguments[..Span(hs, arguments)] ==> !NextAny(hs, v)
    decreases |arguments|
  {
    var n := Span(hs, arguments);
    if n > 0 {
      SpanStops(hs, arguments[1..]);
      assert arguments[..n] == [arguments[0]] + arguments[1..][..n - 1];
    }
  }

  // The values of a key are all the arguments up to the first that ends them, or to the end.
  lemma {:induction false} SpanExactly(hs: seq<Handler>, arguments: seq<string>)
    ensures var n := Span(hs, arguments);
            && (forall i :: 0 <= i < n ==> !EndsValues(hs, arguments[i]))
            && (n < |arguments| ==> EndsValues(hs, arguments[n]))
    decreases |arguments|
  {
    if arguments != [] {
      NextExactly(hs, arguments[0]);
      if !NextAny(hs, arguments[0]) { SpanExactly(hs, arguments[1..]); }
    }
  }

  // Each key can be reached when it is given; none of its values would end them in that
  // state, and what comes after them does.
  ghost predicate CutAtKeys(hs: seq<Handler>, actions: seq<Action>)
    decreases |actions|
  {
    actions != [] ==>
      && Reachable(hs, actions[0].key)
      && (forall v :: v in actions[0].values ==> !EndsValues(hs, v))
      && (|actions| > 1 ==> EndsValues(hs, actions[1].key))
      && HasAny(hs, actions[0].key) && Assigned(hs, actions[0]).Ok?
      && CutAtKeys(Assigned(hs, actions[0]).value, actions[1..])
  }

  lemma {:induction false} TraversalCutsAtKeys(hs: seq<Handler>, arguments: seq<string>)
    requires Traversed(hs, arguments).Ok?
    ensures CutAtKeys(hs, Traversed(hs, arguments).value.actions)
    decreases |arguments|
  {
    if arguments != [] {
      var rest := arguments[1..];
      var n := Span(hs, rest);
      var action := Action(arguments[0], rest[..n]);
      var later := Assigned(hs, action).value;
      HasExactly(hs, action.key);
      SpanExactly(hs, rest);
      TraversalCutsAtKeys(later, rest[n..]);
      FirstIsNext(later, rest[n..]);
      var o := Traversed(hs, arguments).value;
      assert o.actions[0] == action && o.actions[1..] == Traversed(later, rest[n..]).value.actions;
    }
  }

  lemma FirstIsNext(hs: seq<Handler>, arguments: seq<string>)
    requires Traversed(hs, arguments).Ok?
    ensures var actions := Traversed(hs, arguments).value.actions;
            (actions == [] <==> arguments == []) && (actions != [] ==> actions[0].key == arguments[0])
  {
  }

  lemma {:induction false} TraversalIsProper(hs: seq<Handler>, arguments: seq<string>)
    requires Traversed(hs, arguments).Ok?
    ensures var o := Traversed(hs, arguments).value; Proper(hs, o.actions, o.handlers)
    decreases |arguments|
  {
    if arguments != [] {
      var rest := arguments[1..];
      var n := Span(hs, rest);
      var action := Action(arguments[0], rest[..n]);
      var later := Assigned(hs, action).value;
      SpanStops(hs, rest);
      TraversalIsProper(later, rest[n..]);
      var o := Traversed(hs, arguments).value;
      assert o.actions[0] == action && o.actions[1..] == Traversed(later, rest[n..]).value.actions;
    }
  }

  // ----- What is assigned, and what is refused -----

  // From min on, in steps that are not 0, up to max.
  ghost predicate Permits(c: Cardinality, n: nat) {
    n <= c.max && if c.step == 0 then c.min <= n else exists k: nat :: n == c.min + k * c.step
  }

  lemma PermitsExactly(c: Cardinality, n: nat)
    ensures c.Accepts(n) <==> Permits(c, n)
  {
    if c.step != 0 {
      if c.Accepts(n) {
        Divided(n - c.min, c.step);
        assert n == c.min + (n - c.min) / c.step * c.step;
      }
      if k: nat :| n == c.min + k * c.step {
        Divided(n - c.min, c.step);
        OneQuotient(c.step, (n - c.min) / c.step, (n - c.min) % c.step, k, 0);
      }
    }
  }

  // No way that leads to the key starts before this one, nor inside any of its groups.
  ghost predicate IsFirst(hs: seq<Handler>, way: seq<nat>, key: string)
    requires IsWay(hs, way)
    decreases |way|
  {
    && (forall other :: IsWay(hs, other) && LeadsTo(hs, other, key) ==> way[0] <= other[0])
    && (|way| > 1 ==> IsFirst(hs[way[0]].content, way[1..], key))
  }

  // Why a handler refuses an action, if it does.
  ghost predicate Refuses(h: Handler, action: Action, e: Error) {
    || (e == WrongNumberOfUses && h.Option? && !Permits(h.uses, |h.given| + 1))
    || (e == WrongNumberOfValues && !(h.Option? && !Permits(h.uses, |h.given| + 1))
        && !Permits(h.arity, |action.values|))
  }

  // The handler at the end of the way keeps the action, and the handlers along the way come
  // to the front, with those before them going to the end.
  predicate TurnedTo(hs: seq<Handler>, way: seq<nat>, action: Action, r: seq<Handler>)
    requires IsWay(hs, way)
    decreases |way|
  {
    var h := hs[way[0]];
    && |r| == |hs| && r[1..] == hs[way[0] + 1..] + hs[..way[0]]
    && if |way| == 1 then r[0] == if h.Option? then h.(given := h.given + [action]) else h.(opening := Some(action))
       else r[0].Group? && r[0] == h.(content := r[0].content) && TurnedTo(h.content, way[1..], action, r[0].content)
  }

  lemma WayFrom(hs: seq<Handler>, j: nat, key: string)
    requires j < |hs| && Has(hs[j], key)
    ensures exists way :: IsWay(hs, way) && LeadsTo(hs, way, key) && way[0] == j
  {
    var h := hs[j];
    if IsOpen(h) {
      HasExactly(h.content, key);
      var inner :| IsWay(h.content, inner) && LeadsTo(h.content, inner, key);
      WayInto(hs, j, inner, [j] + inner, key);
    } else {
      assert IsWay(hs, [j]) && Along(hs, [j]) == [h];
      assert LeadsTo(hs, [j], key);
    }
  }

  lemma FindsFirst(hs: seq<Handler>, way: seq<nat>, key: string)
    requires IsWay(hs, way) && LeadsTo(hs, way, key) && IsFirst(hs, way, key)
    ensures Find(hs, key) == way[0] && HasAny(hs, key)
  {
    ReachableIsHad(hs, way, key);
    var i := Find(hs, key);
    if i < way[0] {
      WayFrom(hs, i, key);
    } else if i > way[0] {
      NoneBefore(hs, key, way[0]);
    }
  }

  lemma {:induction false} NoneBefore(hs: seq<Handler>, key: string, j: nat)
    requires j < Find(hs, key)
    ensures !Has(hs[j], key)
    decreases |hs|
  {
    if j > 0 { NoneBefore(hs[1..], key, j - 1); }
  }

  lemma InnerWay(hs: seq<Handler>, way: seq<nat>, key: string)
    requires IsWay(hs, way) && LeadsTo(hs, way, key)
    ensures if |way| == 1 then !IsOpen(hs[way[0]]) && Along(hs, way) == [hs[way[0]]]
            else IsOpen(hs[way[0]]) && LeadsTo(hs[way[0]].content, way[1..], key)
                 && Last(Along(hs, way)) == Last(Along(hs[way[0]].content, way[1..]))
  {
    var along := Along(hs, way);
    if |way| > 1 {
      var inner := Along(hs[way[0]].content, way[1..]);
      assert along == [hs[way[0]]] + inner;
      assert IsOpen(along[0]);
      forall i | 0 <= i < |inner| - 1 ensures IsOpen(inner[i]) {
        assert inner[i] == along[i + 1];
      }
    }
  }

  // An action goes to the handler that the first way leads to: it is refused by the numbers of
  // that handler alone, and otherwise kept there, with all else as it was but for its place.
  lemma {:induction false} AssignsExactly(hs: seq<Handler>, way: seq<nat>, action: Action)
    requires IsWay(hs, way) && LeadsTo(hs, way, action.key) && IsFirst(hs, way, action.key)
    ensures HasAny(hs, action.key)
    ensures var h, r := Last(Along(hs, way)), Assigned(hs, action);
            && (forall e :: r == Err(e) <==> Refuses(h, action, e))
            && (r.Ok? ==> TurnedTo(hs, way, action, r.value))
    decreases |way|
  {
    var h := hs[way[0]];
    FindsFirst(hs, way, action.key);
    InnerWay(hs, way, action.key);
    AssignTurns(hs, way[0], action);
    if |way| == 1 {
      OneAssigns(h, action);
    } else {
      AssignsExactly(h.content, way[1..], action);
    }
  }

  // What becomes of the list when the handler at i takes the action.
  lemma {:induction false} AssignTurns(hs: seq<Handler>, i: nat, action: Action)
    requires HasAny(hs, action.key) && i == Find(hs, action.key)
    ensures var one, all := AssignedOne(hs[i], action), Assigned(hs, action);
            if one.Err? then all == Err(one.error)
            else && all.Ok? && |all.value| == |hs| && all.value[0] == one.value
                 && all.value[1..] == hs[i + 1..] + hs[..i]
  {
  }

  lemma {:induction false} OneAssigns(h: Handler, action: Action)
    requires Has(h, action.key) && !IsOpen(h)
    ensures var r := AssignedOne(h, action);
            && (forall e :: r == Err(e) <==> Refuses(h, action, e))
            && (r.Ok? ==> r.value == if h.Option? then h.(given := h.given + [action]) else h.(opening := Some(action)))
  {
    PermitsExactly(h.arity, |action.values|);
    if h.Option? { PermitsExactly(h.uses, |h.given| + 1); }
  }

  // A key that can be given has a first way.
  lemma {:induction false} FirstWay(hs: seq<Handler>, key: string) returns (way: seq<nat>)
    requires HasAny(hs, key)
    ensures IsWay(hs, way) && LeadsTo(hs, way, key) && IsFirst(hs, way, key)
    decreases hs
  {
    var i := Find(hs, key);
    var h := hs[i];
    forall other | IsWay(hs, other) && LeadsTo(hs, other, key) ensures i <= other[0] {
      ReachableIsHad(hs, other, key);
      if other[0] < i { NoneBefore(hs, key, other[0]); }
    }
    if IsOpen(h) {
      var inner := FirstWay(h.content, key);
      way := [i] + inner;
      WayInto(hs, i, inner, way, key);
    } else {
      way := [i];
      assert Along(hs, way) == [h];
    }
  }

  // A traversal fails at some key, with its values up to the next one: the key is unknown if
  // nothing reachable has it, and otherwise refused by the handler that it goes to.
  lemma {:induction false} TraversalFails(hs: seq<Handler>, arguments: seq<string>)
    returns (actions: seq<Action>, state: seq<Handler>, action: Action, rest: seq<string>)
    requires Traversed(hs, arguments).Err?
    ensures Proper(hs, actions, state)
    ensures arguments == Flattened(actions) + Flattened([action]) + rest
    ensures forall v :: v in action.values ==> !EndsValues(state, v)
    ensures rest != [] ==> EndsValues(state, rest[0])
    ensures var e := Traversed(hs, arguments).error;
            if e == UnknownKey then !Reachable(state, action.key)
            else Reachable(state, action.key) && HasAny(state, action.key) && Assigned(state, action) == Err(e)
    decreases |arguments|
  {
    var n := Span(hs, arguments[1..]);
    action, rest := Action(arguments[0], arguments[1..][..n]), arguments[1..][n..];
    HasExactly(hs, action.key);
    SpanExactly(hs, arguments[1..]);
    SpanStops(hs, arguments[1..]);
    Cut(arguments, n);
    FlattenedNext(action, []);
    assert [action] + [] == [action];
    assert Flattened([action]) == [action.key] + action.values;
    if !HasAny(hs, action.key) || Assigned(hs, action).Err? {
      actions, state := [], hs;
      if HasAny(hs, action.key) { NeverUnknown(hs, action); }
      assert [] + Flattened([action]) == Flattened([action]);
    } else {
      var next := Assigned(hs, action).value;
      TraversedNext(hs, arguments, action, rest);
      var later, end, failed, behind := TraversalFails(next, rest);
      ProperNext(hs, action, later, end);
      FlattenedFirst(arguments, action, later, failed, behind);
      actions, state, action, rest := [action] + later, end, failed, behind;
    }
  }

  lemma ProperNext(hs: seq<Handler>, action: Action, later: seq<Action>, end: seq<Handler>)
    requires HasAny(hs, action.key) && (forall v :: v in action.values ==> !NextAny(hs, v))
    requires Assigned(hs, action).Ok? && Proper(Assigned(hs, action).value, later, end)
    ensures Proper(hs, [action] + later, end)
  {
    assert ([action] + later)[1..] == later;
  }

  lemma FlattenedFirst(all: seq<string>, action: Action, later: seq<Action>, failed: Action, behind: seq<string>)
    requires all == [action.key] + action.values + (Flattened(later) + Flattened([failed]) + behind)
    ensures all == Flattened([action] + later) + Flattened([failed]) + behind
  {
    FlattenedNext(action, later);
    Associate([action.key] + action.values, Flattened(later) + Flattened([failed]), behind);
    Associate([action.key] + action.values, Flattened(later), Flattened([failed]));
  }

  lemma {:induction false} NeverUnknown(hs: seq<Handler>, action: Action)
    requires HasAny(hs, action.key) && Assigned(hs, action).Err?
    ensures Assigned(hs, action).error != UnknownKey
    decreases hs
  {
    var h := hs[Find(hs, action.key)];
    if IsOpen(h) { NeverUnknown(h.content, action); }
  }

  // ----- Every action is assigned once -----

  function Bound(h: Handler): multiset<Action>
    decreases h
  {
    match h
    case Option(_, _, _, given) => multiset(given)
    case Group(_, _, _, content, opening) =>
      BoundAll(content) + if opening.Some? then multiset{opening.value} else multiset{}
  }

  function BoundAll(hs: seq<Handler>): multiset<Action>
    decreases hs
  {
    if hs == [] then multiset{} else Bound(hs[0]) + BoundAll(hs[1..])
  }

  lemma {:induction false} BoundAllJoined(a: seq<Handler>, b: seq<Handler>)
    ensures BoundAll(a + b) == BoundAll(a) + BoundAll(b)
    decreases |a|
  {
    if a == [] {
      assert a + b == b;
    } else {
      assert (a + b)[1..] == a[1..] + b;
      BoundAllJoined(a[1..], b);
    }
  }

  lemma BoundOfOne(h: Handler)
    ensures BoundAll([h]) == Bound(h)
  {
    assert [h][1..] == [];
  }

  lemma BoundAround(before: seq<Handler>, h: Handler, after: seq<Handler>)
    ensures BoundAll(before + ([h] + after)) == BoundAll(before) + (Bound(h) + BoundAll(after))
  {
    BoundAllJoined(before, [h] + after);
    BoundAllJoined([h], after);
    BoundOfOne(h);
  }

  lemma Exchange<T>(before: multiset<T>, after: multiset<T>, x: multiset<T>, more: multiset<T>)
    ensures (multiset{} + ((x + more) + after)) + before == (before + (x + after)) + more
    ensures ((x + more) + after) + before == (before + (x + after)) + more
  {
  }

  lemma {:induction false} AssignBinds(hs: seq<Handler>, action: Action)
    requires HasAny(hs, action.key) && Assigned(hs, action).Ok?
    ensures BoundAll(Assigned(hs, action).value) == BoundAll(hs) + multiset{action}
    decreases hs, 1
  {
    var i := Find(hs, action.key);
    var before, h, after := hs[..i], hs[i], hs[i + 1..];
    AssignOneBinds(h, action);
    var g := AssignedOne(h, action).value;
    AssignedIs(hs, action, before, h, g, after);
    BoundMoves(hs, before, h, g, after, Assigned(hs, action).value, action);
  }

  lemma {:induction false} AssignedIs(hs: seq<Handler>, action: Action,
                                      before: seq<Handler>, h: Handler, g: Handler, after: seq<Handler>)
    requires HasAny(hs, action.key) && Assigned(hs, action).Ok?
    requires var i := Find(hs, action.key); before == hs[..i] && h == hs[i] && after == hs[i + 1..]
    requires AssignedOne(h, action) == Ok(g)
    ensures hs == before + ([h] + after) && Assigned(hs, action).value == [g] + after + before
  {
    SplitAt(hs, Find(hs, action.key));
  }

  lemma BoundMoves(hs: seq<Handler>, before: seq<Handler>, h: Handler, g: Handler, after: seq<Handler>,
                   turned: seq<Handler>, action: Action)
    requires hs == before + ([h] + after) && turned == [g] + after + before
    requires Bound(g) == Bound(h) + multiset{action}
    ensures BoundAll(turned) == BoundAll(hs) + multiset{action}
  {
    BoundAround(before, h, after);
    BoundAllJoined([g] + after, before);
    BoundAllJoined([g], after);
    BoundOfOne(g);
    Exchange(BoundAll(before), BoundAll(after), Bound(h), multiset{action});
  }

  lemma {:induction false} AssignOneBinds(h: Handler, action: Action)
    requires Has(h, action.key) && AssignedOne(h, action).Ok?
    ensures Bound(AssignedOne(h, action).value) == Bound(h) + multiset{action}
    decreases h, 0
  {
    if h.Group? && h.opening.Some? { AssignBinds(h.content, action); }
  }

  lemma MoreActions(before: multiset<Action>, actions: seq<Action>)
    requires actions != []
    ensures (before + multiset{actions[0]}) + multiset(actions[1..]) == before + multiset(actions)
  {
    assert actions == [actions[0]] + actions[1..];
  }

  // Whatever was assigned stays so, and each action has been assigned to one handler.
  lemma {:induction false} TraversalBinds(hs: seq<Handler>, actions: seq<Action>, end: seq<Handler>)
    requires Proper(hs, actions, end)
    ensures BoundAll(end) == BoundAll(hs) + multiset(actions)
    decreases |actions|
  {
    if actions != [] {
      var next := Assigned(hs, actions[0]).value;
      AssignBinds(hs, actions[0]);
      TraversalBinds(next, actions[1..], end);
      MoreActions(BoundAll(hs), actions);
    }
  }

  // ----- The handlers only rotate -----

  // What stays of a handler whatever is assigned to it.
  datatype Outline = Outline(group: bool, keys: seq<string>, uses: Cardinality, arity: Cardinality)

  function OutlineOf(h: Handler): Outline { Outline(h.Group?, h.keys, h.uses, h.arity) }

  function Outlines(hs: seq<Handler>): (o: seq<Outline>)
    ensures |o| == |hs| && forall i :: 0 <= i < |hs| ==> o[i] == OutlineOf(hs[i])
  {
    seq(|hs|, i requires 0 <= i < |hs| => OutlineOf(hs[i]))
  }

  // One assignment turns the list so that the handler used is at the front.
  lemma AssignRotates(hs: seq<Handler>, action: Action)
    requires HasAny(hs, action.key) && Assigned(hs, action).Ok?
    ensures var i := Find(hs, action.key);
            Outlines(Assigned(hs, action).value) == Rotated(Outlines(hs), i)
    ensures Bound(Assigned(hs, action).value[0]) == Bound(hs[Find(hs, action.key)]) + multiset{action}
  {
    var i := Find(hs, action.key);
    AssignOneBinds(hs[i], action);
    OutlinesRotate(hs, i, AssignedOne(hs[i], action).value);
  }

  lemma OutlinesRotate(hs: seq<Handler>, i: nat, h: Handler)
    requires i < |hs| && OutlineOf(h) == OutlineOf(hs[i])
    ensures Outlines([h] + hs[i + 1..] + hs[..i]) == Rotated(Outlines(hs), i)
  {
  }

  lemma {:induction false} TraversalRotates(hs: seq<Handler>, actions: seq<Action>, end: seq<Handler>) returns (i: nat)
    requires Proper(hs, actions, end)
    ensures i <= |hs| && Outlines(end) == Rotated(Outlines(hs), i)
    decreases |actions|
  {
    if actions == [] {
      i := 0;
    } else {
      var next := Assigned(hs, actions[0]).value;
      var j := Find(hs, actions[0].key);
      AssignRotates(hs, actions[0]);
      var k := TraversalRotates(next, actions[1..], end);
      i := RotateTwice(Outlines(hs), j, k);
    }
  }

  lemma RotateTwice<T>(s: seq<T>, j: nat, k: nat) returns (i: nat)
    requires j <= |s| && k <= |s|
    ensures i <= |s| && Rotated(Rotated(s, j), k) == Rotated(s, i)
  {
    i := if j + k <= |s| then j + k else j + k - |s|;
    forall x | 0 <= x < |s| ensures Rotated(Rotated(s, j), k)[x] == Rotated(s, i)[x] {
      RotatedAt(Rotated(s, j), k, x);
      RotatedAt(s, j, if x < |s| - k then x + k else x - (|s| - k));
      RotatedAt(s, i, x);
    }
  }

  lemma RotatedAt<T>(s: seq<T>, i: nat, x: nat)
    requires i <= |s| && x < |s|
    ensures Rotated(s, i)[x] == s[if x < |s| - i then x + i else x - (|s| - i)]
  {
  }

  // After a traversal the handler that was used last is at the front.
  lemma {:induction false} LastUsedIsFirst(hs: seq<Handler>, actions: seq<Action>, end: seq<Handler>)
    requires Proper(hs, actions, end) && actions != []
    ensures end != [] && actions[|actions| - 1] in Bound(end[0])
    decreases |actions|
  {
    var next := Assigned(hs, actions[0]).value;
    if |actions| == 1 {
      AssignRotates(hs, actions[0]);
      assert actions[1..] == [];
    } else {
      LastUsedIsFirst(next, actions[1..], end);
    }
  }

  // ----- How often the names of a handler are used -----

  predicate Touches(keys: seq<string>, names: set<string>) { exists k :: k in keys && k in names }

  predicate Within(keys: seq<string>, names: set<string>) { forall k :: k in keys ==> k in names }

  // Marks for the options and groups at any depth that have a key among some names: one for
  // the handler, one if it has other keys too, and one for each thing it has been given.
  datatype Mark = OptionMark | GroupMark | MixedMark | GivenMark

  function Own(h: Handler, names: set<string>): multiset<Mark> {
    if !Touches(h.keys, names) then multiset{}
    else
      var mixed := if Within(h.keys, names) then multiset{} else multiset{MixedMark};
      match h
      case Option(_, _, _, given) => multiset{OptionMark} + mixed + multiset{}[GivenMark := |given|]
      case Group(_, _, _, _, opening) =>
        multiset{GroupMark} + mixed + if opening.Some? then multiset{GivenMark} else multiset{}
  }

  function Marks(h: Handler, names: set<string>): multiset<Mark>
    decreases h
  {
    if h.Group? then Own(h, names) + MarksAll(h.content, names) else Own(h, names)
  }

  function MarksAll(hs: seq<Handler>, names: set<string>): multiset<Mark>
    decreases hs
  {
    if hs == [] then multiset{} else Marks(hs[0], names) + MarksAll(hs[1..], names)
  }

  lemma {:induction false} MarksJoined(a: seq<Handler>, b: seq<Handler>, names: set<string>)
    ensures MarksAll(a + b, names) == MarksAll(a, names) + MarksAll(b, names)
    decreases |a|
  {
    if a == [] {
      assert a + b == b;
    } else {
      assert (a + b)[1..] == a[1..] + b;
      MarksJoined(a[1..], b, names);
    }
  }

  lemma MarksAround(before: seq<Handler>, h: Handler, after: seq<Handler>, names: set<string>)
    ensures MarksAll(before + ([h] + after), names)
         == MarksAll(before, names) + (Marks(h, names) + MarksAll(after, names))
  {
    MarksJoined(before, [h] + after, names);
    MarksJoined([h], after, names);
    assert [h][1..] == [];
  }

  lemma MarksInFront(g: Handler, after: seq<Handler>, before: seq<Handler>, names: set<string>)
    ensures MarksAll([g] + after + before, names)
         == (Marks(g, names) + MarksAll(after, names)) + MarksAll(before, names)
  {
    MarksJoined([g] + after, before, names);
    MarksJoined([g], after, names);
    assert [g][1..] == [];
  }

  // The mark for an assignment of one of the names.
  function GivenBy(key: string, names: set<string>): multiset<Mark> {
    if key in names then multiset{GivenMark} else multiset{}
  }

  // An assignment of one of the names is given to just these handlers, one of another key to
  // none of them, when none of them has other keys too.
  lemma {:induction false} AssignMarks(hs: seq<Handler>, action: Action, names: set<string>)
    requires HasAny(hs, action.key) && Assigned(hs, action).Ok? && MixedMark !in MarksAll(hs, names)
    ensures MarksAll(Assigned(hs, action).value, names) == MarksAll(hs, names) + GivenBy(action.key, names)
    decreases hs, 1
  {
    var i := Find(hs, action.key);
    MixedInOne(hs, i, names);
    AssignOneMarks(hs[i], action, names);
    MarksTurn(hs, i, action, AssignedOne(hs[i], action).value, names, GivenBy(action.key, names));
  }

  lemma {:induction false} MarksTurn(hs: seq<Handler>, i: nat, action: Action, g: Handler,
                                     names: set<string>, more: multiset<Mark>)
    requires HasAny(hs, action.key) && Assigned(hs, action).Ok? && i == Find(hs, action.key)
    requires AssignedOne(hs[i], action) == Ok(g) && Marks(g, names) == Marks(hs[i], names) + more
    ensures MarksAll(Assigned(hs, action).value, names) == MarksAll(hs, names) + more
  {
    AssignedIs(hs, action, hs[..i], hs[i], g, hs[i + 1..]);
    MarksMove(hs, hs[..i], hs[i], g, hs[i + 1..], Assigned(hs, action).value, names, more);
  }

  lemma MixedInOne(hs: seq<Handler>, i: nat, names: set<string>)
    requires i < |hs| && MixedMark !in MarksAll(hs, names)
    ensures MixedMark !in Marks(hs[i], names)
  {
    SplitAt(hs, i);
    MarksAround(hs[..i], hs[i], hs[i + 1..], names);
  }

  lemma MarksMove(hs: seq<Handler>, before: seq<Handler>, h: Handler, g: Handler, after: seq<Handler>,
                  turned: seq<Handler>, names: set<string>, more: multiset<Mark>)
    requires hs == before + ([h] + after) && turned == [g] + after + before
    requires Marks(g, names) == Marks(h, names) + more
    ensures MarksAll(turned, names) == MarksAll(hs, names) + more
  {
    MarksAround(before, h, after, names);
    MarksInFront(g, after, before, names);
    Exchange(MarksAll(before, names), MarksAll(after, names), Marks(h, names), more);
  }

  lemma {:induction false} AssignOneMarks(h: Handler, action: Action, names: set<string>)
    requires Has(h, action.key) && AssignedOne(h, action).Ok? && MixedMark !in Marks(h, names)
    ensures Marks(AssignedOne(h, action).value, names) == Marks(h, names) + GivenBy(action.key, names)
    decreases h, 0
  {
    var g := AssignedOne(h, action).value;
    AssignedOneIs(h, action, g);
    if h.Group? && h.opening.Some? {
      AssignMarks(h.content, action, names);
      assert Own(g, names) == Own(h, names);
    } else {
      OwnMarks(h, g, action.key, names);
    }
  }

  // What an assignment changes of a handler.
  lemma AssignedOneIs(h: Handler, action: Action, g: Handler)
    requires Has(h, action.key) && AssignedOne(h, action) == Ok(g)
    ensures OutlineOf(g) == OutlineOf(h)
    ensures h.Option? ==> action.key in h.keys && g == h.(given := h.given + [action])
    ensures h.Group? && h.opening.None? ==> action.key in h.keys && g == h.(opening := Some(action))
    ensures h.Group? && h.opening.Some? ==>
      HasAny(h.content, action.key) && Assigned(h.content, action) == Ok(g.content) && g == h.(content := g.content)
  {
  }

  lemma OwnMarks(h: Handler, g: Handler, key: string, names: set<string>)
    requires key in h.keys && MixedMark !in Own(h, names) && OutlineOf(g) == OutlineOf(h)
    requires if h.Option? then |g.given| == |h.given| + 1 else h.opening.None? && g.opening.Some?
    ensures Own(g, names) == Own(h, names) + GivenBy(key, names)
  {
    assert Touches(h.keys, names) <==> key in names;
  }

  // How many of the actions use one of the names.
  function Uses(actions: seq<Action>, names: set<string>): nat {
    if actions == [] then 0 else (if actions[0].key in names then 1 else 0) + Uses(actions[1..], names)
  }

  lemma {:induction false} TraversalMarks(hs: seq<Handler>, actions: seq<Action>, end: seq<Handler>, names: set<string>)
    requires Proper(hs, actions, end) && MixedMark !in MarksAll(hs, names)
    ensures MarksAll(end, names) == MarksAll(hs, names) + multiset{}[GivenMark := Uses(actions, names)]
    decreases |actions|
  {
    if actions != [] {
      AssignMarks(hs, actions[0], names);
      TraversalMarks(Assigned(hs, actions[0]).value, actions[1..], end, names);
    }
  }

  // A group is given one thing at most.
  lemma {:induction false} GroupsGivenOne(hs: seq<Handler>, names: set<string>)
    requires OptionMark !in MarksAll(hs, names)
    ensures MarksAll(hs, names)[GivenMark] <= MarksAll(hs, names)[GroupMark]
    decreases hs, 1
  {
    if hs != [] {
      GroupGivenOne(hs[0], names);
      GroupsGivenOne(hs[1..], names);
    }
  }

  lemma {:induction false} GroupGivenOne(h: Handler, names: set<string>)
    requires OptionMark !in Marks(h, names)
    ensures Marks(h, names)[GivenMark] <= Marks(h, names)[GroupMark]
    decreases h, 0
  {
    if h.Group? { GroupsGivenOne(h.content, names); }
  }

  // Names that no option has, and that belong to groups which have no others, are used at most
  // once for each such group that is closed; nested groups and several names make no
  // difference.
  lemma OpensAtMostOnce(hs: seq<Handler>, actions: seq<Action>, end: seq<Handler>, names: set<string>)
    requires Proper(hs, actions, end) && OptionMark !in MarksAll(hs, names) && MixedMark !in MarksAll(hs, names)
    ensures Uses(actions, names) + MarksAll(hs, names)[GivenMark] <= MarksAll(hs, names)[GroupMark]
  {
    TraversalMarks(hs, actions, end, names);
    GroupsGivenOne(end, names);
  }

  // When all such groups are open nothing has any of the names, which is an unknown key.
  lemma {:induction false} OpenedHasNot(hs: seq<Handler>, names: set<string>, key: string)
    requires key in names && HasAny(hs, key) && OptionMark !in MarksAll(hs, names)
    ensures MarksAll(hs, names)[GivenMark] < MarksAll(hs, names)[GroupMark]
    decreases hs, 1
  {
    if Has(hs[0], key) {
      OpenedOneHasNot(hs[0], names, key);
      GroupsGivenOne(hs[1..], names);
    } else {
      GroupGivenOne(hs[0], names);
      OpenedHasNot(hs[1..], names, key);
    }
  }

  lemma {:induction false} OpenedOneHasNot(h: Handler, names: set<string>, key: string)
    requires key in names && Has(h, key) && OptionMark !in Marks(h, names)
    ensures Marks(h, names)[GivenMark] < Marks(h, names)[GroupMark]
    decreases h, 0
  {
    if h.Group? {
      if h.opening.Some? { OpenedHasNot(h.content, names, key); } else { GroupsGivenOne(h.content, names); }
    }
  }

  // An option that shares its names with nothing has been given as much as they were used.
  lemma OptionHoldsUses(hs: seq<Handler>, actions: seq<Action>, end: seq<Handler>, k: nat, names: set<string>)
    requires Proper(hs, actions, end) && MarksAll(hs, names) == multiset{OptionMark}
    requires k < |end| && end[k].Option? && Touches(end[k].keys, names)
    ensures |end[k].given| == Uses(actions, names)
  {
    var before, after := end[..k], end[k + 1..];
    SplitAt(end, k);
    TraversalMarks(hs, actions, end, names);
    MarksAround(before, end[k], after, names);
    OnlyOption(before, end[k], after, names, Uses(actions, names));
  }

  lemma OnlyOption(before: seq<Handler>, h: Handler, after: seq<Handler>, names: set<string>, n: nat)
    requires h.Option? && Touches(h.keys, names)
    requires MarksAll(before, names) + (Marks(h, names) + MarksAll(after, names))
          == multiset{OptionMark} + multiset{}[GivenMark := n]
    ensures |h.given| == n
  {
    var b, own, a := MarksAll(before, names), Marks(h, names), MarksAll(after, names);
    var uses := multiset{}[GivenMark := n];
    Counts(b, own, a, uses, OptionMark);
    Counts(b, own, a, uses, GroupMark);
    Counts(b, own, a, uses, GivenMark);
    GroupsGivenOne(before, names);
    GroupsGivenOne(after, names);
  }

  lemma Counts(b: multiset<Mark>, own: multiset<Mark>, a: multiset<Mark>, uses: multiset<Mark>, m: Mark)
    requires b + (own + a) == multiset{OptionMark} + uses
    ensures b[m] + own[m] + a[m] == uses[m] + if m == OptionMark then 1 else 0
  {
    assert (b + (own + a))[m] == (multiset{OptionMark} + uses)[m];
  }

  // ----- Validation after the traversal -----

  // The number of uses that validation compares; a group never counts its own.
  function Counted(h: Handler): nat { if h.Option? then |h.given| else 0 }

  // Only the handlers of the outermost list are validated.
  predicate Validates(hs: seq<Handler>) { forall i :: 0 <= i < |hs| ==> hs[i].uses.Accepts(Counted(hs[i])) }

  // Options that have been given nothing so far.
  predicate Unused(hs: seq<Handler>) { forall i :: 0 <= i < |hs| && hs[i].Option? ==> hs[i].given == [] }

  // An option that has been used accepts the number of its uses, and accepted the first.
  predicate AcceptsUses(h: Handler) {
    h.Option? && h.given != [] ==> h.uses.Accepts(|h.given|) && h.uses.min <= 1
  }

  predicate UsedAccept(hs: seq<Handler>) { forall h :: h in hs ==> AcceptsUses(h) }

  lemma {:induction false} UsesStayAccepted(hs: seq<Handler>, actions: seq<Action>, end: seq<Handler>)
    requires Proper(hs, actions, end) && UsedAccept(hs)
    ensures UsedAccept(end)
    decreases |actions|
  {
    if actions != [] {
      AssignAccepted(hs, actions[0]);
      UsesStayAccepted(Assigned(hs, actions[0]).value, actions[1..], end);
    }
  }

  lemma AssignAccepted(hs: seq<Handler>, action: Action)
    requires HasAny(hs, action.key) && Assigned(hs, action).Ok? && UsedAccept(hs)
    ensures UsedAccept(Assigned(hs, action).value)
  {
    var i := Find(hs, action.key);
    var h := AssignedOne(hs[i], action).value;
    assert AcceptsUses(h) by { assert hs[i] in hs; }
    forall g | g in [h] + hs[i + 1..] + hs[..i] ensures AcceptsUses(g) {
      assert g == h || g in hs;
    }
  }

  lemma RotatedHas<T>(s: seq<T>, i: nat, x: T)
    requires i <= |s|
    ensures x in Rotated(s, i) <==> x in s
  {
    assert s == s[..i] + s[i..];
  }

  // What must be used at least a number of times is used, in an outermost list.
  predicate MandatoryUsed(end: seq<Handler>) {
    forall k :: 0 <= k < |end| && end[k].Option? && end[k].uses.min == 1 ==> end[k].given != []
  }

  // No group must be used, and no option must be used more than once.
  predicate Satisfiable(o: seq<Outline>) {
    forall x :: x in o ==> x.uses.min == 0 || (!x.group && x.uses.min == 1)
  }

  // Validation succeeds if and only if no group must be used, no option must be used more
  // than once, and every option that must be used once has been used. The first two do not
  // depend on the arguments: a group does not count its uses, and the first use of an option
  // that must be used twice is already refused.
  lemma ValidatesExactly(hs: seq<Handler>, actions: seq<Action>, end: seq<Handler>)
    requires Proper(hs, actions, end) && Unused(hs)
    ensures Validates(end) <==> Satisfiable(Outlines(hs)) && MandatoryUsed(end)
  {
    assert UsedAccept(hs) by {
      forall h | h in hs ensures AcceptsUses(h) {
        var k :| 0 <= k < |hs| && hs[k] == h;
      }
    }
    UsesStayAccepted(hs, actions, end);
    SatisfiableStays(hs, actions, end);
    ValidatesHere(end);
  }

  lemma SatisfiableStays(hs: seq<Handler>, actions: seq<Action>, end: seq<Handler>)
    requires Proper(hs, actions, end)
    ensures Satisfiable(Outlines(end)) <==> Satisfiable(Outlines(hs))
    ensures forall x :: x in Outlines(end) <==> x in Outlines(hs)
  {
    var i := TraversalRotates(hs, actions, end);
    forall x ensures x in Outlines(end) <==> x in Outlines(hs) {
      RotatedHas(Outlines(hs), i, x);
    }
  }

  lemma ValidatesHere(end: seq<Handler>)
    requires UsedAccept(end)
    ensures Validates(end) <==> Satisfiable(Outlines(end)) && MandatoryUsed(end)
  {
    SatisfiableOne(end);
    forall k | 0 <= k < |end|
      ensures end[k].uses.Accepts(Counted(end[k]))
              <==> end[k].uses.min == 0 || (end[k].Option? && end[k].uses.min == 1 && end[k].given != [])
    {
      assert end[k] in end;
    }
  }

  lemma SatisfiableOne(hs: seq<Handler>)
    ensures Satisfiable(Outlines(hs))
            <==> forall k :: 0 <= k < |hs| ==> hs[k].uses.min == 0 || (hs[k].Option? && hs[k].uses.min == 1)
  {
    if Satisfiable(Outlines(hs)) {
      forall k | 0 <= k < |hs| ensures hs[k].uses.min == 0 || (hs[k].Option? && hs[k].uses.min == 1) {
        assert Outlines(hs)[k] == OutlineOf(hs[k]);
      }
    }
  }

  function Names(o: Outline): set<string> { set k | k in o.keys }

  lemma {:induction false} NoNames(hs: seq<Handler>)
    ensures MarksAll(hs, {}) == multiset{}
    decreases hs
  {
    if hs != [] {
      if hs[0].Group? { NoNames(hs[0].content); }
      NoNames(hs[1..]);
    }
  }

  lemma MandatoryHolds(hs: seq<Handler>, actions: seq<Action>, end: seq<Handler>, k: nat)
    requires Proper(hs, actions, end) && k < |end| && end[k].Option?
    requires MarksAll(hs, Names(OutlineOf(end[k]))) == multiset{OptionMark}
    ensures |end[k].given| == Uses(actions, Names(OutlineOf(end[k])))
  {
    var keys, names := end[k].keys, Names(OutlineOf(end[k]));
    assert keys != [] by {
      if keys == [] {
        assert names == {};
        NoNames(hs);
      }
    }
    assert keys[0] in keys && keys[0] in names;
    OptionHoldsUses(hs, actions, end, k, names);
  }

  // The same by the arguments alone, when what must be used shares its names with nothing.
  lemma ValidatesByUses(hs: seq<Handler>, actions: seq<Action>, end: seq<Handler>)
    requires Proper(hs, actions, end) && Unused(hs)
    requires forall x :: x in Outlines(hs) && !x.group && x.uses.min == 1
               ==> MarksAll(hs, Names(x)) == multiset{OptionMark}
    ensures Validates(end)
            <==> && Satisfiable(Outlines(hs))
                 && forall x :: x in Outlines(hs) && !x.group && x.uses.min == 1 ==> Uses(actions, Names(x)) > 0
  {
    ValidatesExactly(hs, actions, end);
    SatisfiableStays(hs, actions, end);
    forall k | 0 <= k < |end| && end[k].Option? && end[k].uses.min == 1
      ensures |end[k].given| == Uses(actions, Names(OutlineOf(end[k])))
    {
      MandatoryHolds(hs, actions, end, k);
    }
  }

  // A group that must be used is refused whatever the arguments are, also when they use it.
  lemma MandatoryGroupFails(hs: seq<Handler>, actions: seq<Action>, end: seq<Handler>, i: nat)
    requires Proper(hs, actions, end) && Unused(hs) && i < |hs| && hs[i].Group? && hs[i].uses.min > 0
    ensures !Validates(end)
  {
    ValidatesExactly(hs, actions, end);
    assert Outlines(hs)[i] == OutlineOf(hs[i]);
  }

  // So is an option that must be used at least twice.
  lemma MandatoryTwiceFails(hs: seq<Handler>, actions: seq<Action>, end: seq<Handler>, i: nat)
    requires Proper(hs, actions, end) && Unused(hs) && i < |hs| && hs[i].uses.min > 1
    ensures !Validates(end)
  {
    ValidatesExactly(hs, actions, end);
    assert Outlines(hs)[i] == OutlineOf(hs[i]);
  }

  // ----- Nested options are not validated -----

  // The same but for the number of uses, at any depth.
  predicate Alike(h: Handler, g: Handler)
    decreases h
  {
    && h.keys == g.keys && h.arity == g.arity
    && match h
       case Option(_, _, _, given) => g.Option? && g.given == given
       case Group(_, _, _, content, opening) => g.Group? && g.opening == opening && AllAlike(content, g.content)
  }

  predicate AllAlike(hs: seq<Handler>, gs: seq<Handler>)
    decreases hs
  {
    |hs| == |gs| && forall i :: 0 <= i < |hs| ==> Alike(hs[i], gs[i])
  }

  // The same but for the number of uses inside groups.
  predicate AlikeOutside(hs: seq<Handler>, gs: seq<Handler>) {
    AllAlike(hs, gs) && forall i :: 0 <= i < |hs| ==> hs[i].uses == gs[i].uses
  }

  lemma {:induction false} AlikeHas(h: Handler, g: Handler, key: string)
    requires Alike(h, g)
    ensures Has(h, key) <==> Has(g, key)
    decreases h
  {
    if h.Group? { AlikeHasAny(h.content, g.content, key); }
  }

  lemma {:induction false} AlikeHasAny(hs: seq<Handler>, gs: seq<Handler>, key: string)
    requires AllAlike(hs, gs)
    ensures HasAny(hs, key) <==> HasAny(gs, key)
    ensures Find(hs, key) == Find(gs, key)
    decreases hs
  {
    if hs != [] {
      AlikeHas(hs[0], gs[0], key);
      AlikeHasAny(hs[1..], gs[1..], key);
    }
  }

  lemma {:induction false} AssignAlike(hs: seq<Handler>, gs: seq<Handler>, action: Action)
    requires AllAlike(hs, gs) && HasAny(hs, action.key) && HasAny(gs, action.key)
    requires Assigned(hs, action).Ok? && Assigned(gs, action).Ok?
    ensures AllAlike(Assigned(hs, action).value, Assigned(gs, action).value)
    ensures AlikeOutside(hs, gs) ==> AlikeOutside(Assigned(hs, action).value, Assigned(gs, action).value)
    decreases hs, 1
  {
    var i := Find(hs, action.key);
    AlikeHasAny(hs, gs, action.key);
    AssignOneAlike(hs[i], gs[i], action);
  }

  lemma {:induction false} AssignOneAlike(h: Handler, g: Handler, action: Action)
    requires Alike(h, g) && Has(h, action.key) && Has(g, action.key)
    requires AssignedOne(h, action).Ok? && AssignedOne(g, action).Ok?
    ensures var a, b := AssignedOne(h, action).value, AssignedOne(g, action).value;
            Alike(a, b) && a.uses == h.uses && b.uses == g.uses
    decreases h, 0
  {
    if h.Group? && h.opening.Some? { AssignAlike(h.content, g.content, action); }
  }

  // How often an option inside a group must be used makes no difference to the validation
  // after the same actions.
  lemma {:induction false} NestedUsesDoNotMatter(hs: seq<Handler>, gs: seq<Handler>, actions: seq<Action>,
                                                 end: seq<Handler>, other: seq<Handler>)
    requires AlikeOutside(hs, gs) && Proper(hs, actions, end) && Proper(gs, actions, other)
    ensures Validates(end) <==> Validates(other)
    decreases |actions|
  {
    if actions == [] {
      forall i | 0 <= i < |hs| ensures Counted(hs[i]) == Counted(gs[i]) {
        assert Alike(hs[i], gs[i]);
      }
    } else {
      AssignAlike(hs, gs, actions[0]);
      NestedUsesDoNotMatter(Assigned(hs, actions[0]).value, Assigned(gs, actions[0]).value, actions[1..], end, other);
    }
  }
}
