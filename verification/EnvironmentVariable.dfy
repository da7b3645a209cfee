// An environment variable as it is configured: a name, '=', and a value.
module EnvironmentVariable {

  function Pivot(v: string): (n: nat)
    ensures n <= |v|
  {
    if |v| == 0 || v[0] == '=' then 0 else 1 + Pivot(v[1..])
  }

  function Name(v: string): string { v[..Pivot(v)] }

  // What comes after the '='; nothing when there is none.
  function Value(v: string): string { if Pivot(v) < |v| then v[Pivot(v) + 1..] else "" }

  // The name ends at the first '='.
  lemma {:induction false} PivotIsFirst(v: string)
    ensures '=' !in v[..Pivot(v)] && (Pivot(v) < |v| ==> v[Pivot(v)] == '=')
  {
    if |v| > 0 && v[0] != '=' {
      PivotIsFirst(v[1..]);
      assert v[..Pivot(v)] == [v[0]] + v[1..][..Pivot(v[1..])];
    }
  }

  // A variable is its name, '=' and its value; without '=' it is all name.
  lemma NameAndValue(v: string)
    ensures '=' !in Name(v)
    ensures if '=' in v then v == Name(v) + "=" + Value(v) else v == Name(v) && Value(v) == ""
  {
    PivotIsFirst(v);
    assert v == v[..Pivot(v)] + v[Pivot(v)..];
  }
}
