// Merging one list of configured entities into another: an entity of the source goes to the
// first entity of the target with the same key, or to the end.
module ConfigMerge {
  import opened Wrappers

  // How entities are told apart and put together. An entity without a key matches none.
  datatype Rule<!T(!new), !K(==)> = Rule(key: T -> Option<K>, plus: (T, T) -> T, ok: T -> bool)

  predicate Same<K(==)>(k: Option<K>, l: Option<K>) { k.Some? && k == l }

  ghost predicate KeepsKey<T(!new), K>(rule: Rule<T, K>, x: T, y: T) {
    Same(rule.key(x), rule.key(y)) ==> rule.key(rule.plus(x, y)) == rule.key(x)
  }

  ghost predicate KeepsOk<T(!new), K>(rule: Rule<T, K>, x: T, y: T) {
    rule.ok(x) && rule.ok(y) ==> rule.ok(rule.plus(x, y))
  }

  ghost predicate Associates<T(!new), K>(rule: Rule<T, K>, x: T, y: T, z: T) {
    rule.ok(y) && rule.ok(z) ==> rule.plus(rule.plus(x, y), z) == rule.plus(x, rule.plus(y, z))
  }

  // What a rule must satisfy: putting together keeps the key and what is ok, and is associative.
  ghost predicate Lawful<T(!new), K>(rule: Rule<T, K>) {
    && (forall x, y :: KeepsKey(rule, x, y))
    && (forall x, y :: KeepsOk(rule, x, y))
    && (forall x, y, z :: Associates(rule, x, y, z))
  }

  // The rule by which a later entity takes the place of an earlier one.
  function Replacing<T(!new), K>(key: T -> Option<K>): (rule: Rule<T, K>)
    ensures Lawful(rule)
  {
    Rule(key, (x: T, y: T) => y, (x: T) => true)
  }

  // ----- Merging -----

  function Find<T(!new), K>(rule: Rule<T, K>, s: seq<T>, k: Option<K>): (i: nat)
    ensures i <= |s|
    ensures forall j :: 0 <= j < i ==> !Same(rule.key(s[j]), k)
    ensures i < |s| ==> Same(rule.key(s[i]), k)
    decreases |s|
  {
    if s == [] then 0
    else
      var n := |s| - 1;
      var i := Find(rule, s[..n], k);
      if i < n || Same(rule.key(s[n]), k) then i else |s|
  }

  function Put<T(!new), K>(rule: Rule<T, K>, s: seq<T>, v: T): (r: seq<T>)
    ensures |s| <= |r| <= |s| + 1
  {
    var i := Find(rule, s, rule.key(v));
    if i < |s| then s[i := rule.plus(s[i], v)] else s + [v]
  }

  function Merge<T(!new), K>(rule: Rule<T, K>, target: seq<T>, source: seq<T>): (r: seq<T>)
    ensures |r| >= |target|
    decreases |source|
  {
    if source == [] then target
    else Put(rule, Merge(rule, target, source[..|source| - 1]), source[|source| - 1])
  }

  // The loop of range::update, and with the rule Replacing that of range::replace.
  method MergeInto<T(!new), K(==)>(rule: Rule<T, K>, target: seq<T>, source: seq<T>) returns (merged: seq<T>)
    ensures merged == Merge(rule, target, source)
  {
    merged := target;
    for n := 0 to |source|
      invariant merged == Merge(rule, target, source[..n])
    {
      assert source[..n + 1][..n] == source[..n];
      var value := source[n];
      var found := 0;
      while found < |merged| && !Same(rule.key(merged[found]), rule.key(value))
        invariant 0 <= found <= |merged|
        invariant forall j :: 0 <= j < found ==> !Same(rule.key(merged[j]), rule.key(value))
      {
        found := found + 1;
      }
      FindFirst(rule, merged, rule.key(value), found);
      merged := if found < |merged| then merged[found := rule.plus(merged[found], value)] else merged + [value];
    }
    assert source[..|source|] == source;
  }

  lemma FindFirst<T(!new), K>(rule: Rule<T, K>, s: seq<T>, k: Option<K>, i: nat)
    requires i <= |s| && forall j :: 0 <= j < i ==> !Same(rule.key(s[j]), k)
    requires i < |s| ==> Same(rule.key(s[i]), k)
    ensures Find(rule, s, k) == i
  {
  }

  lemma MergeSnoc<T(!new), K>(rule: Rule<T, K>, target: seq<T>, source: seq<T>, v: T)
    ensures Merge(rule, target, source + [v]) == Put(rule, Merge(rule, target, source), v)
  {
    assert (source + [v])[..|source|] == source;
  }

  // ----- Unique keys -----

  predicate Unique<T(!new), K>(rule: Rule<T, K>, s: seq<T>) {
    forall i, j :: 0 <= i < j < |s| ==> !Same(rule.key(s[i]), rule.key(s[j]))
  }

  ghost predicate AllOk<T(!new), K>(rule: Rule<T, K>, s: seq<T>) {
    forall i :: 0 <= i < |s| ==> rule.ok(s[i])
  }

  lemma PutKeys<T(!new), K>(rule: Rule<T, K>, s: seq<T>, v: T, j: nat)
    requires Lawful(rule) && j < |s|
    ensures rule.key(Put(rule, s, v)[j]) == rule.key(s[j])
  {
    var i := Find(rule, s, rule.key(v));
    if i == j { assert KeepsKey(rule, s[i], v); }
  }

  lemma PutUnique<T(!new), K>(rule: Rule<T, K>, s: seq<T>, v: T)
    requires Lawful(rule) && Unique(rule, s)
    ensures Unique(rule, Put(rule, s, v))
  {
    var r := Put(rule, s, v);
    forall i, j | 0 <= i < j < |r| ensures !Same(rule.key(r[i]), rule.key(r[j])) {
      PutKeys(rule, s, v, i);
      if j < |s| { PutKeys(rule, s, v, j); }
    }
  }

  lemma {:induction false} MergeUnique<T(!new), K>(rule: Rule<T, K>, target: seq<T>, source: seq<T>)
    requires Lawful(rule) && Unique(rule, target)
    ensures Unique(rule, Merge(rule, target, source))
    decreases |source|
  {
    if source != [] {
      var n := |source| - 1;
      MergeUnique(rule, target, source[..n]);
      PutUnique(rule, Merge(rule, target, source[..n]), source[n]);
    }
  }

  lemma {:induction false} MergeOk<T(!new), K>(rule: Rule<T, K>, target: seq<T>, source: seq<T>)
    requires Lawful(rule) && AllOk(rule, target) && AllOk(rule, source)
    ensures AllOk(rule, Merge(rule, target, source))
    decreases |source|
  {
    if source != [] {
      var n := |source| - 1;
      MergeOk(rule, target, source[..n]);
      var s := Merge(rule, target, source[..n]);
      var i := Find(rule, s, rule.key(source[n]));
      if i < |s| { assert KeepsOk(rule, s[i], source[n]); }
    }
  }

  // ----- Associativity -----

  // Two puts of the same key are one put of the two put together.
  lemma PutTwice<T(!new), K>(rule: Rule<T, K>, s: seq<T>, w: T, v: T)
    requires Lawful(rule) && Same(rule.key(w), rule.key(v)) && rule.ok(w) && rule.ok(v)
    ensures Put(rule, Put(rule, s, w), v) == Put(rule, s, rule.plus(w, v))
  {
    var k := rule.key(v);
    assert KeepsKey(rule, w, v);
    var i := Find(rule, s, k);
    var once := Put(rule, s, w);
    forall j | 0 <= j < i ensures !Same(rule.key(once[j]), k) {
      PutKeys(rule, s, w, j);
    }
    if i < |s| {
      PutKeys(rule, s, w, i);
      assert Associates(rule, s[i], w, v);
    }
    FindFirst(rule, once, k, i);
  }

  // Puts of different keys commute when the first finds its key there.
  lemma PutsCommute<T(!new), K>(rule: Rule<T, K>, s: seq<T>, v: T, w: T)
    requires Lawful(rule) && !Same(rule.key(v), rule.key(w))
    requires Find(rule, s, rule.key(v)) < |s|
    ensures Put(rule, Put(rule, s, v), w) == Put(rule, Put(rule, s, w), v)
  {
    var i, j := Find(rule, s, rule.key(v)), Find(rule, s, rule.key(w));
    var sv, sw := Put(rule, s, v), Put(rule, s, w);
    forall k | 0 <= k < |s| ensures rule.key(sv[k]) == rule.key(s[k]) && rule.key(sw[k]) == rule.key(s[k]) {
      PutKeys(rule, s, v, k);
      PutKeys(rule, s, w, k);
    }
    FindFirst(rule, sv, rule.key(w), j);
    FindFirst(rule, sw, rule.key(v), i);
    assert i != j;
  }

  // A key that is in the source is in the merged list.
  lemma {:induction false} MergeHas<T(!new), K>(rule: Rule<T, K>, target: seq<T>, source: seq<T>, i: nat)
    requires Lawful(rule) && i < |source| && rule.key(source[i]).Some?
    ensures Find(rule, Merge(rule, target, source), rule.key(source[i])) < |Merge(rule, target, source)|
    decreases |source|
  {
    var n := |source| - 1;
    if i < n { MergeHas(rule, target, source[..n], i); }
    PutHas(rule, Merge(rule, target, source[..n]), source[n], rule.key(source[i]));
  }

  // A key that is in the list, or is put there, is there afterwards.
  lemma PutHas<T(!new), K>(rule: Rule<T, K>, s: seq<T>, v: T, k: Option<K>)
    requires Lawful(rule) && k.Some? && (Find(rule, s, k) < |s| || rule.key(v) == k)
    ensures Find(rule, Put(rule, s, v), k) < |Put(rule, s, v)|
  {
    var j := Find(rule, s, k);
    if j < |s| { PutKeys(rule, s, v, j); }
  }

  // Merging a list into which an entity was put is putting the entity into the merged list.
  lemma {:induction false} MergeOfPut<T(!new), K>(rule: Rule<T, K>, a: seq<T>, d: seq<T>, v: T)
    requires Lawful(rule) && Unique(rule, d) && AllOk(rule, d) && rule.ok(v)
    ensures Merge(rule, a, Put(rule, d, v)) == Put(rule, Merge(rule, a, d), v)
    decreases |d|
  {
    var k := rule.key(v);
    var i := Find(rule, d, k);
    if i == |d| {
      MergeSnoc(rule, a, d, v);
    } else {
      var n := |d| - 1;
      var front, w := d[..n], d[n];
      var merged := Merge(rule, a, front);
      if i == n {
        assert Put(rule, d, v) == front + [rule.plus(w, v)];
        MergeSnoc(rule, a, front, rule.plus(w, v));
        PutTwice(rule, merged, w, v);
      } else {
        FindFirst(rule, front, k, i);
        assert Put(rule, d, v) == Put(rule, front, v) + [w];
        MergeSnoc(rule, a, Put(rule, front, v), w);
        MergeOfPut(rule, a, front, v);
        assert front[i] == d[i] && Same(rule.key(front[i]), k);
        MergeHas(rule, a, front, i);
        PutsCommute(rule, merged, v, w);
      }
    }
  }

  // Merging in two steps is merging in one, when the list in the middle has unique keys.
  lemma {:induction false} MergeAssociates<T(!new), K>(rule: Rule<T, K>, a: seq<T>, b: seq<T>, c: seq<T>)
    requires Lawful(rule) && Unique(rule, b) && AllOk(rule, b) && AllOk(rule, c)
    ensures Merge(rule, Merge(rule, a, b), c) == Merge(rule, a, Merge(rule, b, c))
    decreases |c|
  {
    if c != [] {
      var n := |c| - 1;
      var front := c[..n];
      MergeAssociates(rule, a, b, front);
      MergeUnique(rule, b, front);
      MergeOk(rule, b, front);
      MergeOfPut(rule, a, Merge(rule, b, front), c[n]);
    }
  }

  // ----- Merging a list into itself -----

  predicate Keyed<T(!new), K>(rule: Rule<T, K>, s: seq<T>) {
    forall i :: 0 <= i < |s| ==> rule.key(s[i]).Some?
  }

  // The list with its first n entities put together with themselves.
  function Doubled<T(!new), K>(rule: Rule<T, K>, s: seq<T>, n: nat): (r: seq<T>)
    requires n <= |s|
    ensures |r| == |s|
    ensures forall i :: 0 <= i < |s| ==> r[i] == if i < n then rule.plus(s[i], s[i]) else s[i]
    decreases n
  {
    if n == 0 then s else Doubled(rule, s, n - 1)[n - 1 := rule.plus(s[n - 1], s[n - 1])]
  }

  lemma {:induction false} MergeSelf<T(!new), K>(rule: Rule<T, K>, s: seq<T>, n: nat)
    requires Lawful(rule) && Unique(rule, s) && Keyed(rule, s) && n <= |s|
    ensures Merge(rule, s, s[..n]) == Doubled(rule, s, n)
    decreases n
  {
    if n > 0 {
      MergeSelf(rule, s, n - 1);
      assert s[..n][..n - 1] == s[..n - 1];
      var before := Doubled(rule, s, n - 1);
      forall i | 0 <= i < n - 1 ensures !Same(rule.key(before[i]), rule.key(s[n - 1])) {
        assert KeepsKey(rule, s[i], s[i]);
      }
      FindFirst(rule, before, rule.key(s[n - 1]), n - 1);
    }
  }

  lemma {:induction false} MergeKeepsUnkeyed<T(!new), K>(rule: Rule<T, K>, target: seq<T>, source: seq<T>, i: nat)
    requires i < |source| && rule.key(source[i]).None?
    ensures |Merge(rule, target, source)| > |target|
    decreases |source|
  {
    var n := |source| - 1;
    if i < n { MergeKeepsUnkeyed(rule, target, source[..n], i); }
  }

  // Merging a list of unique keys into itself changes nothing if and only if every entity
  // has a key and none is changed by being put together with itself.
  lemma MergeIdempotent<T(!new), K>(rule: Rule<T, K>, s: seq<T>)
    requires Lawful(rule) && Unique(rule, s)
    ensures Merge(rule, s, s) == s <==> Keyed(rule, s) && forall i :: 0 <= i < |s| ==> rule.plus(s[i], s[i]) == s[i]
  {
    if Keyed(rule, s) {
      MergeSelf(rule, s, |s|);
      assert s[..|s|] == s;
      var doubled := Doubled(rule, s, |s|);
      if doubled == s {
        forall i | 0 <= i < |s| ensures rule.plus(s[i], s[i]) == s[i] {
          assert doubled[i] == s[i];
        }
      }
    } else {
      var i :| 0 <= i < |s| && rule.key(s[i]).None?;
      MergeKeepsUnkeyed(rule, s, s, i);
    }
  }

  // ----- Order and contents -----

  // Keys in the order of first appearance; an entity without key always appears.
  function Appear<K(==)>(keys: seq<Option<K>>, k: Option<K>): seq<Option<K>> {
    if k.Some? && k in keys then keys else keys + [k]
  }

  function AppearAll<K(==)>(keys: seq<Option<K>>, more: seq<Option<K>>): seq<Option<K>>
    decreases |more|
  {
    if more == [] then keys else Appear(AppearAll(keys, more[..|more| - 1]), more[|more| - 1])
  }

  function Keys<T(!new), K>(rule: Rule<T, K>, s: seq<T>): (keys: seq<Option<K>>)
    ensures |keys| == |s| && forall i :: 0 <= i < |s| ==> keys[i] == rule.key(s[i])
  {
    seq(|s|, i requires 0 <= i < |s| => rule.key(s[i]))
  }

  lemma {:induction false} OrderOfFirstAppearance<T(!new), K>(rule: Rule<T, K>, target: seq<T>, source: seq<T>)
    requires Lawful(rule)
    ensures Keys(rule, Merge(rule, target, source)) == AppearAll(Keys(rule, target), Keys(rule, source))
    decreases |source|
  {
    if source != [] {
      var n := |source| - 1;
      OrderOfFirstAppearance(rule, target, source[..n]);
      assert Keys(rule, source)[..n] == Keys(rule, source[..n]);
      var before := Merge(rule, target, source[..n]);
      PutAppears(rule, before, source[n]);
    }
  }

  lemma PutAppears<T(!new), K>(rule: Rule<T, K>, s: seq<T>, v: T)
    requires Lawful(rule)
    ensures Keys(rule, Put(rule, s, v)) == Appear(Keys(rule, s), rule.key(v))
  {
    var i := Find(rule, s, rule.key(v));
    forall j | 0 <= j < |s| ensures rule.key(Put(rule, s, v)[j]) == rule.key(s[j]) {
      PutKeys(rule, s, v, j);
    }
    if i < |s| {
      assert Keys(rule, s)[i] == rule.key(v);
      assert Keys(rule, Put(rule, s, v)) == Keys(rule, s);
    } else {
      assert Keys(rule, Put(rule, s, v)) == Keys(rule, s) + [rule.key(v)];
    }
  }

  // What a list says of a key.
  function Lookup<T(!new), K>(rule: Rule<T, K>, s: seq<T>, k: K): Option<T> {
    var i := Find(rule, s, Some(k));
    if i < |s| then Some(s[i]) else None
  }

  // Everything the source says of a key, put together after what the target says.
  function Told<T(!new), K>(rule: Rule<T, K>, first: Option<T>, source: seq<T>, k: K): Option<T>
    decreases |source|
  {
    if source == [] then first
    else
      var n := |source| - 1;
      var told := Told(rule, first, source[..n], k);
      if rule.key(source[n]) != Some(k) then told
      else if told.None? then Some(source[n])
      else Some(rule.plus(told.value, source[n]))
  }

  lemma {:induction false} MergeTells<T(!new), K>(rule: Rule<T, K>, target: seq<T>, source: seq<T>, k: K)
    requires Lawful(rule)
    ensures Lookup(rule, Merge(rule, target, source), k) == Told(rule, Lookup(rule, target, k), source, k)
    decreases |source|
  {
    if source != [] {
      var n := |source| - 1;
      var before, v := Merge(rule, target, source[..n]), source[n];
      MergeTells(rule, target, source[..n], k);
      var after := Put(rule, before, v);
      var i := Find(rule, before, Some(k));
      forall j | 0 <= j < |before| ensures rule.key(after[j]) == rule.key(before[j]) {
        PutKeys(rule, before, v, j);
      }
      if i < |before| {
        FindFirst(rule, after, Some(k), i);
      } else {
        FindFirst(rule, after, Some(k), if rule.key(v) == Some(k) then |before| else |after|);
      }
    }
  }

  // What two lists say of a key, put together.
  function Combined<T(!new), K>(rule: Rule<T, K>, x: Option<T>, y: Option<T>): Option<T> {
    if y.None? then x else if x.None? then y else Some(rule.plus(x.value, y.value))
  }

  lemma {:induction false} ToldOnce<T(!new), K>(rule: Rule<T, K>, first: Option<T>, source: seq<T>, k: K)
    requires Unique(rule, source)
    ensures Told(rule, first, source, k) == Combined(rule, first, Lookup(rule, source, k))
    decreases |source|
  {
    if source != [] {
      var n := |source| - 1;
      var front := source[..n];
      ToldOnce(rule, first, front, k);
      var i := Find(rule, front, Some(k));
      if i < n {
        FindFirst(rule, source, Some(k), i);
        assert !Same(rule.key(source[i]), rule.key(source[n]));
      } else {
        FindFirst(rule, source, Some(k), if rule.key(source[n]) == Some(k) then n else |source|);
      }
    }
  }

  // When the source has unique keys, what the merged list says of a key is what target and
  // source say of it, put together.
  lemma MergeLooksUp<T(!new), K>(rule: Rule<T, K>, target: seq<T>, source: seq<T>, k: K)
    requires Lawful(rule) && Unique(rule, source)
    ensures Lookup(rule, Merge(rule, target, source), k)
         == Combined(rule, Lookup(rule, target, k), Lookup(rule, source, k))
  {
    MergeTells(rule, target, source, k);
    ToldOnce(rule, Lookup(rule, target, k), source, k);
  }

  // With replacement the last writer wins.
  lemma LastWriterWins<T(!new), K>(key: T -> Option<K>, target: seq<T>, source: seq<T>, i: nat, k: K)
    requires i < |source| && key(source[i]) == Some(k)
    requires forall j :: i < j < |source| ==> key(source[j]) != Some(k)
    ensures Lookup(Replacing(key), Merge(Replacing(key), target, source), k) == Some(source[i])
  {
    var rule := Replacing(key);
    MergeTells(rule, target, source, k);
    ToldLast(key, Lookup(rule, target, k), source, i, k);
  }

  lemma {:induction false} ToldLast<T(!new), K>(key: T -> Option<K>, first: Option<T>, source: seq<T>, i: nat, k: K)
    requires i < |source| && key(source[i]) == Some(k)
    requires forall j :: i < j < |source| ==> key(source[j]) != Some(k)
    ensures Told(Replacing(key), first, source, k) == Some(source[i])
    decreases |source|
  {
    var n := |source| - 1;
    if i < n { ToldLast(key, first, source[..n], i, k); }
  }

  // ----- Replacement, exactly -----

  function Count<T(!new), K(==)>(key: T -> Option<K>, s: seq<T>, k: K): nat
    decreases |s|
  {
    if s == [] then 0 else Count(key, s[..|s| - 1], k) + if key(s[|s| - 1]) == Some(k) then 1 else 0
  }

  function LastOf<T(!new), K(==)>(key: T -> Option<K>, s: seq<T>, k: K): Option<T>
    decreases |s|
  {
    if s == [] then None
    else if key(s[|s| - 1]) == Some(k) then Some(s[|s| - 1])
    else LastOf(key, s[..|s| - 1], k)
  }

  lemma CountSnoc<T(!new), K>(key: T -> Option<K>, s: seq<T>, x: T, k: K)
    ensures Count(key, s + [x], k) == Count(key, s, k) + if key(x) == Some(k) then 1 else 0
    ensures LastOf(key, s + [x], k) == if key(x) == Some(k) then Some(x) else LastOf(key, s, k)
  {
    assert (s + [x])[..|s|] == s;
  }

  // A key is found exactly when it occurs, and occurs exactly when it has a last entry.
  lemma {:induction false} CountFinds<T(!new), K>(key: T -> Option<K>, s: seq<T>, k: K)
    ensures Count(key, s, k) > 0 <==> Find(Replacing(key), s, Some(k)) < |s|
    ensures Count(key, s, k) > 0 <==> LastOf(key, s, k).Some?
    decreases |s|
  {
    if s != [] { CountFinds(key, s[..|s| - 1], k); }
  }

  // A put that does not reach the last entry leaves it there.
  lemma {:induction false} PutInFront<T(!new), K>(rule: Rule<T, K>, d: seq<T>, v: T)
    requires d != [] && Find(rule, d, rule.key(v)) < |d| - 1
    ensures Find(rule, d[..|d| - 1], rule.key(v)) == Find(rule, d, rule.key(v))
    ensures Put(rule, d, v) == Put(rule, d[..|d| - 1], v) + [d[|d| - 1]]
  {
    FindFirst(rule, d[..|d| - 1], rule.key(v), Find(rule, d, rule.key(v)));
  }

  // A put never changes how often a key occurs, if it does, nor the last of several entries.
  lemma {:induction false} PutCounts<T(!new), K>(key: T -> Option<K>, d: seq<T>, v: T, k: K)
    ensures var r := Put(Replacing(key), d, v);
            && (Count(key, r, k) == if key(v) == Some(k) && Count(key, d, k) == 0 then 1 else Count(key, d, k))
            && (Count(key, d, k) >= 2 ==> LastOf(key, r, k) == LastOf(key, d, k))
    decreases |d|
  {
    var rule := Replacing(key);
    var i := Find(rule, d, key(v));
    CountFinds(key, d, k);
    if i == |d| {
      CountSnoc(key, d, v, k);
    } else {
      var front, w := d[..|d| - 1], d[|d| - 1];
      assert d == front + [w];
      CountSnoc(key, front, w, k);
      if i < |d| - 1 {
        PutInFront(rule, d, v);
        PutCounts(key, front, v, k);
        CountSnoc(key, Put(rule, front, v), w, k);
        CountFinds(key, front, k);
      } else {
        FindFirst(rule, front, key(v), |front|);
        CountFinds(key, front, k);
        assert Put(rule, d, v) == front + [v];
        CountSnoc(key, front, v, k);
      }
    }
  }

  lemma {:induction false} MergeCounts<T(!new), K>(key: T -> Option<K>, b: seq<T>, c: seq<T>, k: K)
    ensures var r := Merge(Replacing(key), b, c);
            && (Count(key, b, k) > 0 || Count(key, c, k) == 0 ==> Count(key, r, k) == Count(key, b, k))
            && (Count(key, b, k) >= 2 ==> LastOf(key, r, k) == LastOf(key, b, k))
    decreases |c|
  {
    if c != [] {
      var n := |c| - 1;
      MergeCounts(key, b, c[..n], k);
      PutCounts(key, Merge(Replacing(key), b, c[..n]), c[n], k);
    }
  }

  lemma {:induction false} ToldIsLast<T(!new), K>(key: T -> Option<K>, first: Option<T>, s: seq<T>, k: K)
    ensures Told(Replacing(key), first, s, k)
         == if LastOf(key, s, k).Some? then LastOf(key, s, k) else first
    decreases |s|
  {
    if s != [] { ToldIsLast(key, first, s[..|s| - 1], k); }
  }

  // The merged list says of a key what the last entry of the source says, if it has one.
  lemma MergeLast<T(!new), K>(key: T -> Option<K>, target: seq<T>, source: seq<T>, k: K)
    requires LastOf(key, source, k).Some?
    ensures Lookup(Replacing(key), Merge(Replacing(key), target, source), k) == LastOf(key, source, k)
  {
    MergeTells(Replacing(key), target, source, k);
    ToldIsLast(key, Lookup(Replacing(key), target, k), source, k);
  }

  lemma HasAfterMerge<T(!new), K>(rule: Rule<T, K>, a: seq<T>, d: seq<T>, k: Option<K>)
    requires Lawful(rule) && Find(rule, d, k) < |d|
    ensures Find(rule, Merge(rule, a, d), k) < |Merge(rule, a, d)|
  {
    MergeHas(rule, a, d, Find(rule, d, k));
  }

  lemma ReplacedIsFound<T(!new), K>(key: T -> Option<K>, d: seq<T>, v: T)
    requires Find(Replacing(key), d, key(v)) < |d|
    ensures Find(Replacing(key), Put(Replacing(key), d, v), key(v)) == Find(Replacing(key), d, key(v))
  {
    FindFirst(Replacing(key), Put(Replacing(key), d, v), key(v), Find(Replacing(key), d, key(v)));
  }

  // Where the same is put in the end, putting it before as well makes no difference.
  lemma {:induction false} PutBefore<T(!new), K>(key: T -> Option<K>, a: seq<T>, d: seq<T>, v: T)
    requires Find(Replacing(key), d, key(v)) < |d|
    ensures var rule := Replacing(key);
            Put(rule, Merge(rule, a, Put(rule, d, v)), v) == Put(rule, Merge(rule, a, d), v)
    decreases |d|
  {
    var rule := Replacing(key);
    var n := |d| - 1;
    var front, w := d[..n], d[n];
    if Find(rule, d, key(v)) == n {
      var merged := Merge(rule, a, front);
      assert Put(rule, d, v) == front + [v];
      MergeSnoc(rule, a, front, v);
      PutTwice(rule, merged, v, v);
      PutTwice(rule, merged, w, v);
    } else {
      PutInFront(rule, d, v);
      MergeSnoc(rule, a, Put(rule, front, v), w);
      PutBefore(key, a, front, v);
      HasAfterMerge(rule, a, front, key(v));
      ReplacedIsFound(key, front, v);
      HasAfterMerge(rule, a, Put(rule, front, v), key(v));
      PutAfterOther(key, Merge(rule, a, Put(rule, front, v)), Merge(rule, a, front), w, v);
    }
  }

  // Lists that are the same once v is put are the same once another and v are put.
  lemma PutAfterOther<T(!new), K>(key: T -> Option<K>, s: seq<T>, t: seq<T>, w: T, v: T)
    requires var rule := Replacing(key);
             && Put(rule, s, v) == Put(rule, t, v)
             && Find(rule, s, key(v)) < |s| && Find(rule, t, key(v)) < |t|
    ensures var rule := Replacing(key);
            Put(rule, Put(rule, s, w), v) == Put(rule, Put(rule, t, w), v)
  {
    var rule := Replacing(key);
    if Same(key(w), key(v)) {
      PutTwice(rule, s, w, v);
      PutTwice(rule, t, w, v);
    } else {
      PutsCommute(rule, s, v, w);
      PutsCommute(rule, t, v, w);
    }
  }

  // Merging a list into which an entity was put is putting it into the merged list, unless a
  // later entry of the same key, and another one, would come after it.
  lemma {:induction false} MergeOfReplace<T(!new), K>(key: T -> Option<K>, a: seq<T>, d: seq<T>, v: T)
    requires key(v).Some? && Count(key, d, key(v).value) >= 2 ==> LastOf(key, d, key(v).value) == Some(v)
    ensures var rule := Replacing(key);
            Merge(rule, a, Put(rule, d, v)) == Put(rule, Merge(rule, a, d), v)
    decreases |d|
  {
    var rule := Replacing(key);
    var i := Find(rule, d, key(v));
    if i == |d| {
      MergeSnoc(rule, a, d, v);
    } else {
      var n := |d| - 1;
      var front, w := d[..n], d[n];
      var merged := Merge(rule, a, front);
      assert d == front + [w];
      CountSnoc(key, front, w, key(v).value);
      if i == n {
        assert Put(rule, d, v) == front + [v];
        MergeSnoc(rule, a, front, v);
        PutTwice(rule, merged, w, v);
      } else {
        PutInFront(rule, d, v);
        MergeSnoc(rule, a, Put(rule, front, v), w);
        CountFinds(key, front, key(v).value);
        if Same(key(w), key(v)) {
          PutBefore(key, a, front, v);
          PutTwice(rule, merged, w, v);
        } else {
          MergeOfReplace(key, a, front, v);
          HasAfterMerge(rule, a, front, key(v));
          PutsCommute(rule, merged, v, w);
        }
      }
    }
  }

  // A key that the middle list has more than once, and the source too, has the same last
  // entry in both.
  ghost predicate AgreeOn<T(!new), K>(key: T -> Option<K>, b: seq<T>, c: seq<T>, k: K) {
    Count(key, b, k) >= 2 && LastOf(key, c, k).Some? ==> LastOf(key, b, k) == LastOf(key, c, k)
  }

  ghost predicate Agree<T(!new), K(!new)>(key: T -> Option<K>, b: seq<T>, c: seq<T>) {
    forall k :: AgreeOn(key, b, c, k)
  }

  lemma UniqueLast<T(!new), K>(key: T -> Option<K>, s: seq<T>, k: K)
    requires Unique(Replacing(key), s)
    ensures LastOf(key, s, k) == Lookup(Replacing(key), s, k)
  {
    ToldIsLast(key, None, s, k);
    ToldOnce(Replacing(key), None, s, k);
  }

  lemma {:induction false} UniqueCounts<T(!new), K>(key: T -> Option<K>, s: seq<T>, k: K)
    requires Unique(Replacing(key), s)
    ensures Count(key, s, k) <= 1
    decreases |s|
  {
    if s != [] {
      var front := s[..|s| - 1];
      UniqueCounts(key, front, k);
      CountFinds(key, front, k);
    }
  }

  lemma UniqueAgrees<T(!new), K(!new)>(key: T -> Option<K>, b: seq<T>, c: seq<T>)
    requires Unique(Replacing(key), b)
    ensures Agree(key, b, c)
  {
    forall k ensures AgreeOn(key, b, c, k) {
      UniqueCounts(key, b, k);
    }
  }

  lemma {:induction false} UniqueReplaceAssociates<T(!new), K(!new)>(key: T -> Option<K>,
                                                                           a: seq<T>, b: seq<T>, c: seq<T>)
    requires Unique(Replacing(key), c) && forall k :: AgreeOn(key, b, c, k)
    ensures var rule := Replacing(key);
            Merge(rule, Merge(rule, a, b), c) == Merge(rule, a, Merge(rule, b, c))
    decreases |c|
  {
    if c != [] {
      var n := |c| - 1;
      var front, v := c[..n], c[n];
      assert c == front + [v];
      forall k ensures AgreeOn(key, b, front, k) {
        assert AgreeOn(key, b, c, k);
        CountSnoc(key, front, v, k);
        UniqueLast(key, c, k);
        UniqueLast(key, front, k);
        if LastOf(key, front, k).Some? {
          FindFirst(Replacing(key), c, Some(k), Find(Replacing(key), front, Some(k)));
        }
      }
      UniqueReplaceAssociates(key, a, b, front);
      if key(v).Some? {
        var k := key(v).value;
        assert AgreeOn(key, b, c, k);
        CountSnoc(key, front, v, k);
        MergeCounts(key, b, front, k);
        CountFinds(key, front, k);
        assert Count(key, front, k) == 0;
      }
      MergeOfReplace(key, a, Merge(Replacing(key), b, front), v);
    }
  }

  // Merging by replacement in two steps is merging in one if and only if every key that the
  // middle list has more than once, and the last list too, has the same last entry in both.
  lemma ReplaceAssociatesExactly<T(!new), K(!new)>(key: T -> Option<K>, a: seq<T>, b: seq<T>, c: seq<T>)
    ensures var rule := Replacing(key);
            Merge(rule, Merge(rule, a, b), c) == Merge(rule, a, Merge(rule, b, c))
            <==> Agree(key, b, c)
  {
    var rule := Replacing(key);
    if Agree(key, b, c) {
      var once := Merge(rule, [], c);
      MergeUnique(rule, [], c);
      forall k ensures AgreeOn(key, b, once, k) {
        assert AgreeOn(key, b, c, k);
        UniqueLast(key, once, k);
        MergeTells(rule, [], c, k);
        ToldIsLast(key, None, c, k);
      }
      UniqueReplaceAssociates(key, a, b, once);
      MergeAssociates(rule, Merge(rule, a, b), [], c);
      MergeAssociates(rule, b, [], c);
    } else {
      var k :| !AgreeOn(key, b, c, k);
      MergeLast(key, Merge(rule, a, b), c, k);
      MergeCounts(key, b, c, k);
      CountFinds(key, b, k);
      MergeLast(key, a, Merge(rule, b, c), k);
    }
  }
}
