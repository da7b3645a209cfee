// Expansion of ${NAME} in text. The text is cut into parts, each from one "${" to the next,
// and each part is handled by itself, in place.
module Expand {
  import opened Sequences
  import EnvironmentVariable

  // ----- Cutting -----

  // A "${" stands at position i.
  predicate At(s: string, i: nat) { i + 1 < |s| && s[i] == '$' && s[i + 1] == '{' }

  // Where the first "${" stands, or the end.
  function Search(s: string): (n: nat)
    ensures n <= |s|
  {
    if |s| == 0 || At(s, 0) then 0 else 1 + Search(s[1..])
  }

  // The next part and the rest.
  function NextRange(s: string): (r: (string, string))
    ensures r.0 + r.1 == s
    ensures |s| > 0 ==> |r.0| > 0
  {
    var n := Search(s);
    if n == 0 && |s| > 0 then
      SearchZero(s);
      var m := 2 + Search(s[2..]);
      (s[..m], s[m..])
    else (s[..n], s[n..])
  }

  lemma SearchZero(s: string)
    requires |s| > 0 && Search(s) == 0
    ensures At(s, 0)
  {
  }

  // All the parts.
  function Parts(s: string): seq<string>
    decreases |s|
  {
    if |s| == 0 then [] else
      var r := NextRange(s);
      [r.0] + Parts(r.1)
  }

  // ----- One part -----

  // The first '}', or the end.
  function FindEnd(s: string): (n: nat)
    ensures n <= |s|
    ensures n < |s| ==> s[n] == '}'
  {
    if |s| == 0 || s[0] == '}' then 0 else 1 + FindEnd(s[1..])
  }

  // A part is replaced up to its '}' if it has at least four characters and one of them is '}'.
  function Handled(part: string, lookup: string -> string): string {
    if |part| < 4 || !At(part, 0) then part
    else
      var found := FindEnd(part);
      if found == |part| then part
      else
        FindEndInside(part);
        lookup(part[2..found]) + part[found + 1..]
  }

  lemma FindEndInside(part: string)
    requires At(part, 0)
    ensures FindEnd(part) == 2 + FindEnd(part[2..])
  {
    assert part[1..][1..] == part[2..];
    assert FindEnd(part[1..]) == 1 + FindEnd(part[1..][1..]);
  }

  function Expanded(s: string, lookup: string -> string): string
    decreases |s|
  {
    if |s| == 0 then "" else Handled(NextRange(s).0, lookup) + Expanded(NextRange(s).1, lookup)
  }

  // ----- The code -----

  // Handles the part that lies at [first, last) of the text, putting a terminator in place
  // of the '}' that ends the name.
  method HandlePart(text: array<char>, first: nat, last: nat, lookup: string -> string, out: string)
    returns (written: string)
    requires first <= last <= text.Length
    modifies text
    ensures written == out + Handled(old(text[first..last]), lookup)
    ensures text[last..] == old(text[last..]) && text[..first] == old(text[..first])
  {
    ghost var given := text[..];
    ghost var part := given[first..last];
    if last - first < 4 || !(text[first] == '$' && text[first + 1] == '{') {
      return out + text[first..last];
    }
    var found := first;
    while found < last && text[found] != '}'
      invariant first <= found <= last
      invariant forall i :: 0 <= i < found - first ==> part[i] != '}'
    {
      found := found + 1;
    }
    HandledBy(part, found - first, lookup);
    if found == last { return out + text[first..last]; }
    text[found] := '\0';
    assert text[..] == given[found := '\0'];
    Kept(given, first, found, last);
    written := out + lookup(text[first + 2..found]) + text[found + 1..last];
    UpdateOutside(given, found, '\0', 0, first);
    UpdateOutside(given, found, '\0', last, |given|);
  }

  // The name and what comes after it are not touched by the terminator between them.
  lemma Kept(given: string, first: nat, found: nat, last: nat)
    requires first + 2 <= found < last <= |given|
    ensures var part, now := given[first..last], given[found := '\0'];
            now[first + 2..found] == part[2..found - first] && now[found + 1..last] == part[found - first + 1..]
  {
    UpdateOutside(given, found, '\0', first + 2, found);
    UpdateOutside(given, found, '\0', found + 1, last);
    SliceOfSlice(given, first, last, 2, found - first);
    SliceOfSlice(given, first, last, found - first + 1, last - first);
  }

  // What is done with a part whose first '}' is at n, or that has none.
  lemma HandledBy(part: string, n: nat, lookup: string -> string)
    requires |part| >= 4 && At(part, 0)
    requires n <= |part| && forall i :: 0 <= i < n ==> part[i] != '}'
    requires n < |part| ==> part[n] == '}'
    ensures n >= 2
    ensures Handled(part, lookup) == if n == |part| then part else lookup(part[2..n]) + part[n + 1..]
  {
    FindEndIs(part, n);
  }

  lemma {:induction false} FindEndIs(part: string, n: nat)
    requires n <= |part| && forall i :: 0 <= i < n ==> part[i] != '}'
    requires n < |part| ==> part[n] == '}'
    ensures FindEnd(part) == n
    decreases n
  {
    if n > 0 {
      var tail := part[1..];
      assert forall i :: 0 <= i < n - 1 ==> tail[i] == part[i + 1];
      FindEndIs(tail, n - 1);
    }
  }

  // Handles the part that comes next in the text, of which everything from `at` on is
  // still as it was given.
  method HandleNext(text: array<char>, ghost value: string, at: nat, lookup: string -> string, out: string)
    returns (next: nat, written: string)
    requires at < text.Length == |value| && text[at..] == value[at..]
    modifies text
    ensures at < next <= |value| && text[next..] == value[next..]
    ensures out + Expanded(value[at..], lookup) == written + Expanded(value[next..], lookup)
  {
    next := at + |NextRange(text[at..]).0|;
    NextLies(value, at, next);
    assert text[at..next] == value[at..next];
    assert text[next..] == value[next..];
    written := HandlePart(text, at, next, lookup, out);
    ExpandedNext(value[at..], value[at..next], value[next..], lookup, out, written);
  }

  method ExpandText(value: string, lookup: string -> string) returns (out: string)
    ensures out == Expanded(value, lookup)
  {
    var text := new char[|value|](i requires 0 <= i < |value| => value[i]);
    out := "";
    var at := 0;
    assert value[0..] == value && text[0..] == value;
    while at < text.Length
      invariant at <= text.Length == |value|
      invariant text[at..] == value[at..]
      invariant Expanded(value, lookup) == out + Expanded(value[at..], lookup)
    {
      at, out := HandleNext(text, value, at, lookup, out);
    }
    ExpandedEnd(value[at..], out, lookup);
  }

  lemma ExpandedEnd(s: string, out: string, lookup: string -> string)
    requires |s| == 0
    ensures out + Expanded(s, lookup) == out
  {
  }

  lemma NextLies(value: string, at: nat, next: nat)
    requires at < |value| && next == at + |NextRange(value[at..]).0|
    ensures at < next <= |value|
    ensures NextRange(value[at..]) == (value[at..next], value[next..])
  {
    var rest := value[at..];
    var r := NextRange(rest);
    assert rest[..next - at] == r.0 && rest[next - at..] == r.1;
    assert value[at..next] == rest[..next - at] && value[next..] == rest[next - at..];
  }

  lemma ExpandedNext(s: string, part: string, rest: string, lookup: string -> string,
                                        before: string, after: string)
    requires |s| > 0 && NextRange(s) == (part, rest) && after == before + Handled(part, lookup)
    ensures before + Expanded(s, lookup) == after + Expanded(rest, lookup)
  {
    ExpandedOne(s, part, rest, lookup);
    Associate(before, Handled(part, lookup), Expanded(rest, lookup));
  }

  lemma ExpandedOne(s: string, part: string, rest: string, lookup: string -> string)
    requires |s| > 0 && NextRange(s) == (part, rest)
    ensures Expanded(s, lookup) == Handled(part, lookup) + Expanded(rest, lookup)
  {
  }

  // First the local variables, then the environment, which gives "" for what it lacks.
  function Resolve(variables: seq<string>, environment: string -> string, name: string): string {
    if variables == [] then environment(name)
    else if EnvironmentVariable.Name(variables[0]) == name then EnvironmentVariable.Value(variables[0])
    else Resolve(variables[1..], environment, name)
  }

  // The first local variable of the name counts, and the environment only when there is none.
  lemma {:induction false} ResolvedBy(variables: seq<string>, environment: string -> string, name: string, n: nat)
    requires n <= |variables|
    requires forall i :: 0 <= i < n ==> EnvironmentVariable.Name(variables[i]) != name
    requires n < |variables| ==> EnvironmentVariable.Name(variables[n]) == name
    ensures Resolve(variables, environment, name)
         == if n < |variables| then EnvironmentVariable.Value(variables[n]) else environment(name)
    decreases n
  {
    if n > 0 { ResolvedBy(variables[1..], environment, name, n - 1); }
  }

  method ExpandWith(value: string, variables: seq<string>, environment: string -> string) returns (out: string)
    ensures out == Expanded(value, (name: string) => Resolve(variables, environment, name))
  {
    out := ExpandText(value, (name: string) => Resolve(variables, environment, name));
  }

  // ----- The meaning, character by character -----

  // The '}' that closes a name that starts before k, unless a "${" comes first.
  function Closing(s: string, k: nat): (n: nat)
    requires k <= |s|
    ensures k <= n <= |s|
    decreases |s| - k
  {
    if k == |s| || At(s, k) then |s| else if s[k] == '}' then k else Closing(s, k + 1)
  }

  // A "${" starts a name when a '}' closes it before the next "${"; only a "${}" that is
  // followed by nothing or by the next "${" is no name.
  predicate StartsName(s: string) {
    At(s, 0) && Closing(s, 2) < |s| && !(Closing(s, 2) == 2 && (|s| == 3 || At(s, 3)))
  }

  // One pass from left to right.
  function Scan(s: string, lookup: string -> string): string
    decreases |s|
  {
    if |s| == 0 then ""
    else if StartsName(s) then lookup(s[2..Closing(s, 2)]) + Scan(s[Closing(s, 2) + 1..], lookup)
    else [s[0]] + Scan(s[1..], lookup)
  }

  // ----- Parts -----

  // Text without a "${".
  predicate Plain(s: string) { Search(s) == |s| }

  // The end of the text or a "${" comes next.
  predicate Boundary(s: string) { |s| == 0 || At(s, 0) }

  lemma {:induction false} SearchFinds(s: string)
    ensures Plain(s[..Search(s)]) && Boundary(s[Search(s)..])
  {
    if |s| > 0 && !At(s, 0) {
      SearchFinds(s[1..]);
      TailPrefix(s, Search(s));
    }
  }

  // A part is plain, or a "${" and plain text; after it the text ends or a "${" comes.
  lemma PartShape(s: string)
    requires |s| > 0
    ensures var (part, rest) := NextRange(s);
            && (Plain(part) || (At(part, 0) && Plain(part[2..])))
            && Boundary(rest) && Boundary(s) == At(part, 0)
  {
    var n := Search(s);
    if n == 0 {
      SearchFinds(s[2..]);
      var m := Search(s[2..]);
      assert s[..2 + m][2..] == s[2..][..m] && s[2 + m..] == s[2..][m..];
    } else {
      SearchFinds(s);
    }
  }

  function Concatenated(parts: seq<string>): string {
    if parts == [] then "" else parts[0] + Concatenated(parts[1..])
  }

  // The parts make up the text, and each but the first starts with "${".
  lemma {:induction false} PartsMakeUp(s: string)
    ensures Concatenated(Parts(s)) == s
    ensures forall k :: 0 < k < |Parts(s)| ==> At(Parts(s)[k], 0)
    ensures Parts(s) != [] && Boundary(s) ==> At(Parts(s)[0], 0)
    decreases |s|
  {
    if |s| > 0 {
      var (part, rest) := NextRange(s);
      PartShape(s);
      PartsMakeUp(rest);
      assert Parts(s) == [part] + Parts(rest);
    }
  }

  // ----- The two agree -----

  lemma {:induction false} ScanPlain(t: string, b: string, lookup: string -> string)
    requires Plain(t) && Boundary(b)
    ensures Scan(t + b, lookup) == t + Scan(b, lookup)
  {
    if |t| == 0 {
      assert t + b == b;
    } else {
      assert !At(t, 0);
      assert !At(t + b, 0);
      assert (t + b)[1..] == t[1..] + b;
      ScanOther(t + b, t[1..] + b, lookup);
      ScanPlain(t[1..], b, lookup);
      assert [t[0]] + (t[1..] + Scan(b, lookup)) == t + Scan(b, lookup);
    }
  }

  lemma {:induction false} PlainTail(s: string, k: nat)
    requires Plain(s) && k <= |s|
    ensures Plain(s[k..])
  {
    if k > 0 {
      PlainTail(s[1..], k - 1);
      assert s[1..][k - 1..] == s[k..];
    }
  }

  // In plain text before a boundary the name is closed by the first '}', if there is one.
  lemma {:induction false} ClosingInPart(p: string, b: string, k: nat)
    requires 2 <= k <= |p| && Plain(p[k..]) && Boundary(b)
    ensures var end := k + FindEnd(p[k..]);
            Closing(p + b, k) == if end < |p| then end else |p + b|
    decreases |p| - k
  {
    var s := p + b;
    if k < |p| {
      assert p[k..][1..] == p[k + 1..];
      assert !At(p[k..], 0);
      assert !At(s, k);
      if s[k] != '}' { ClosingInPart(p, b, k + 1); }
    } else {
      assert k < |s| ==> At(s, k);
    }
  }

  lemma ScanName(s: string, name: string, after: string, lookup: string -> string)
    requires StartsName(s) && name == s[2..Closing(s, 2)] && after == s[Closing(s, 2) + 1..]
    ensures Scan(s, lookup) == lookup(name) + Scan(after, lookup)
  {
  }

  lemma ScanOther(s: string, after: string, lookup: string -> string)
    requires |s| > 0 && !StartsName(s) && after == s[1..]
    ensures Scan(s, lookup) == [s[0]] + Scan(after, lookup)
  {
  }

  // A part starts a name in the text exactly when it is replaced.
  lemma PartStartsName(p: string, b: string)
    requires At(p, 0) && Plain(p[2..]) && Boundary(b)
    ensures StartsName(p + b) <==> |p| >= 4 && FindEnd(p) < |p|
    ensures FindEnd(p) < |p| ==> Closing(p + b, 2) == FindEnd(p) && FindEnd(p) >= 2
  {
    ClosingInPart(p, b, 2);
    FindEndInside(p);
    assert At(p + b, 0);
    if FindEnd(p) == 2 && |p| > 2 { EmptyName(p, b); }
  }

  lemma ScanPart(p: string, b: string, lookup: string -> string)
    requires At(p, 0) && Plain(p[2..]) && Boundary(b)
    ensures Scan(p + b, lookup) == Handled(p, lookup) + Scan(b, lookup)
  {
    PartStartsName(p, b);
    if |p| >= 4 && FindEnd(p) < |p| {
      ScanReplaced(p, b, FindEnd(p), lookup);
    } else {
      ScanKept(p, b, lookup);
    }
  }

  lemma ScanReplaced(p: string, b: string, end: nat, lookup: string -> string)
    requires At(p, 0) && Plain(p[2..]) && Boundary(b) && 2 <= end < |p|
    requires StartsName(p + b) && Closing(p + b, 2) == end
    ensures Scan(p + b, lookup) == lookup(p[2..end]) + p[end + 1..] + Scan(b, lookup)
  {
    var name, after := p[2..end], p[end + 1..];
    assert Scan(p + b, lookup) == lookup(name) + Scan(after + b, lookup) by {
      SliceOfJoined(p, b, 2, end);
      JoinedSuffix(p, b, end + 1);
      ScanName(p + b, name, after + b, lookup);
    }
    PlainAfter(p, end + 1);
    ScanPlain(after, b, lookup);
    Associate(lookup(name), after, Scan(b, lookup));
  }

  lemma ScanKept(p: string, b: string, lookup: string -> string)
    requires At(p, 0) && Plain(p[2..]) && Boundary(b) && !StartsName(p + b)
    ensures Scan(p + b, lookup) == p + Scan(b, lookup)
  {
    var after := p[1..];
    JoinedSuffix(p, b, 1);
    ScanOther(p + b, after + b, lookup);
    PlainAfter(p, 1);
    ScanPlain(after, b, lookup);
    Associate([p[0]], after, Scan(b, lookup));
    assert [p[0]] + after == p;
  }

  lemma PlainAfter(p: string, k: nat)
    requires At(p, 0) && Plain(p[2..]) && 1 <= k <= |p|
    ensures Plain(p[k..])
  {
    if k == 1 {
      assert p[1..][1..] == p[2..];
    } else {
      PlainTail(p[2..], k - 2);
      assert p[2..][k - 2..] == p[k..];
    }
  }

  lemma EmptyName(p: string, b: string)
    requires |p| >= 3 && At(p, 0) && Plain(p[2..]) && Boundary(b) && p[2] == '}'
    ensures (|p + b| == 3 || At(p + b, 3)) <==> |p| == 3
  {
    if |p| > 3 {
      PlainTail(p[2..], 1);
      assert p[2..][1..] == p[3..];
      assert !At(p[3..], 0);
    }
  }

  // The expansion by parts is the one pass from left to right: what is looked up is what
  // stands between "${" and the '}' that closes it, and values are never looked at again.
  lemma {:induction false} ExpandedIsScan(s: string, lookup: string -> string)
    ensures Expanded(s, lookup) == Scan(s, lookup)
    decreases |s|
  {
    if |s| > 0 {
      var (part, rest) := NextRange(s);
      PartShape(s);
      ExpandedIsScan(rest, lookup);
      if At(part, 0) {
        assert !Plain(part);
        ScanPart(part, rest, lookup);
      } else {
        ScanPlain(part, rest, lookup);
      }
    }
  }

  // ----- Names -----

  lemma {:induction false} ClosingName(s: string, k: nat, n: nat)
    requires k <= n < |s| && s[n] == '}' && forall i :: k <= i < n ==> s[i] != '$' && s[i] != '}'
    ensures Closing(s, k) == n
    decreases n - k
  {
    if k < n { ClosingName(s, k + 1, n); }
  }

  lemma {:induction false} ScanSkips(a: string, s: string, lookup: string -> string)
    requires '$' !in a
    ensures Scan(a + s, lookup) == a + Scan(s, lookup)
    decreases |a|
  {
    if a == "" {
      assert a + s == s;
    } else {
      JoinedSuffix(a, s, 1);
      assert a[0] in a;
      ScanOther(a + s, a[1..] + s, lookup);
      ScanSkips(a[1..], s, lookup);
      Associate([a[0]], a[1..], Scan(s, lookup));
    }
  }

  // A name in "${" and "}" gives way to what it stands for, whatever comes after it.
  lemma NameReplaced(a: string, name: string, b: string, lookup: string -> string)
    requires '$' !in a && name != "" && '$' !in name && '}' !in name
    ensures Expanded(a + ("${" + name + "}" + b), lookup) == a + (lookup(name) + Expanded(b, lookup))
  {
    var s := "${" + name + "}" + b;
    var n := 2 + |name|;
    assert s[n] == '}' && s[2..n] == name && s[n + 1..] == b;
    forall i | 2 <= i < n ensures s[i] != '$' && s[i] != '}' {
      assert s[i] == name[i - 2] && name[i - 2] in name;
    }
    ClosingName(s, 2, n);
    ScanName(s, name, b, lookup);
    ScanSkips(a, s, lookup);
    ExpandedIsScan(a + s, lookup);
    ExpandedIsScan(b, lookup);
  }

  // An empty name is none where the text ends or a "${" comes after it.
  lemma EmptyNameStays(b: string, lookup: string -> string)
    requires Boundary(b)
    ensures Expanded("${}" + b, lookup) == "${}" + Expanded(b, lookup)
  {
    var s := "${}" + b;
    assert Closing(s, 2) == 2;
    assert b != "" ==> At(s, 3);
    ScanOther(s, s[1..], lookup);
    ScanOther(s[1..], s[2..], lookup);
    ScanOther(s[2..], s[3..], lookup);
    assert s[3..] == b;
    ExpandedIsScan(s, lookup);
    ExpandedIsScan(b, lookup);
  }

  // Text without a "${" is not changed.
  lemma PlainUnchanged(s: string, lookup: string -> string)
    requires Plain(s)
    ensures Expanded(s, lookup) == s
  {
    ExpandedIsScan(s, lookup);
    ScanPlain(s, "", lookup);
    assert s + "" == s;
  }

  lemma {:induction false} ClosingApart(a: string, b: string, k: nat)
    requires k <= |a| && Boundary(b)
    ensures Closing(a + b, k) == if Closing(a, k) == |a| then |a + b| else Closing(a, k)
    decreases |a| - k
  {
    var s := a + b;
    if k < |a| {
      assert At(s, k) <==> At(a, k);
      if !At(a, k) && a[k] != '}' { ClosingApart(a, b, k + 1); }
    } else {
      assert k < |s| ==> At(s, k);
    }
  }

  lemma StartsNameApart(a: string, b: string)
    requires |a| > 0 && Boundary(b)
    ensures StartsName(a + b) <==> StartsName(a)
    ensures StartsName(a) ==> Closing(a + b, 2) == Closing(a, 2)
  {
    var s := a + b;
    assert At(s, 0) <==> At(a, 0);
    if At(a, 0) {
      ClosingApart(a, b, 2);
      assert |a| >= 3 ==> ((|s| == 3 || At(s, 3)) <==> (|a| == 3 || At(a, 3)));
    }
  }

  lemma {:induction false} ScanApart(a: string, b: string, lookup: string -> string)
    requires Boundary(b)
    ensures Scan(a + b, lookup) == Scan(a, lookup) + Scan(b, lookup)
    decreases |a|
  {
    var s := a + b;
    if |a| == 0 {
      assert s == b && Scan(a, lookup) == "";
    } else {
      StartsNameApart(a, b);
      if StartsName(a) {
        var n := Closing(a, 2);
        var name, after := a[2..n], a[n + 1..];
        assert s[2..n] == name && s[n + 1..] == after + b;
        ScanName(a, name, after, lookup);
        ScanName(s, name, after + b, lookup);
        ScanApart(after, b, lookup);
        Associate(lookup(name), Scan(after, lookup), Scan(b, lookup));
      } else {
        var after := a[1..];
        JoinedSuffix(a, b, 1);
        ScanOther(a, after, lookup);
        ScanOther(s, after + b, lookup);
        ScanApart(after, b, lookup);
        Associate([a[0]], Scan(after, lookup), Scan(b, lookup));
      }
    }
  }

  // Text can be cut before any "${" and expanded piece by piece.
  lemma ExpandedApart(a: string, b: string, lookup: string -> string)
    requires At(b, 0)
    ensures Expanded(a + b, lookup) == Expanded(a, lookup) + Expanded(b, lookup)
  {
    ScanApart(a, b, lookup);
    ExpandedIsScan(a + b, lookup);
    ExpandedIsScan(a, lookup);
    ExpandedIsScan(b, lookup);
  }
}
