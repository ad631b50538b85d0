/** Strings in arrays: characters up to a NUL. */
module CString {

  /** a holds the string s, and its end, from position at on. */
  ghost predicate Holds(a: array<char>, at: nat, s: string)
    reads a
  {
    && at + |s| < a.Length
    && (forall i | 0 <= i < |s| :: a[at + i] == s[i] && s[i] != '\0')
    && a[at + |s|] == '\0'
  }

  /** strlen */
  method Length(a: array<char>, ghost s: string) returns (n: nat)
    requires Holds(a, 0, s)
    ensures n == |s|
  {
    n := 0;
    while a[n] != '\0'
      invariant n <= |s| && (n < |s| ==> a[n] == s[n])
      decreases a.Length - n
    {
      n := n + 1;
    }
  }

  /** a begins with s. */
  ghost predicate Begins(a: array<char>, s: string)
    reads a
  {
    |s| <= a.Length && forall i | 0 <= i < |s| :: a[i] == s[i] && s[i] != '\0'
  }

  /** strcpy to the position of a behind prefix */
  method Copy(a: array<char>, at: nat, ghost prefix: string, s: string)
    requires at + |s| < a.Length && forall i | 0 <= i < |s| :: s[i] != '\0'
    requires Begins(a, prefix) && at == |prefix|
    modifies a
    ensures Holds(a, 0, prefix + s)
  {
    var i := 0;
    while i < |s|
      invariant i <= |s| && Begins(a, prefix + s[..i])
    {
      a[at + i] := s[i];
      i := i + 1;
    }
    a[at + |s|] := '\0';
  }

  lemma BeginsWith(a: array<char>, prefix: string, s: string)
    requires Holds(a, 0, prefix + s)
    ensures Begins(a, prefix)
  {
    assert forall i | 0 <= i < |prefix| :: (prefix + s)[i] == prefix[i] && a[0 + i] == a[i];
  }

  /** The string in a, up to its end. */
  function Text(a: array<char>): string
    reads a
    requires exists n | 0 <= n < a.Length :: a[n] == '\0'
  {
    TextTo(a, 0)
  }

  function TextTo(a: array<char>, i: nat): (s: string)
    reads a
    requires exists n | i <= n < a.Length :: a[n] == '\0'
    decreases a.Length - i
  {
    if a[i] == '\0' then "" else [a[i]] + TextTo(a, i + 1)
  }

  lemma {:induction false} TextIs(a: array<char>, i: nat, s: string)
    requires Holds(a, i, s)
    ensures TextTo(a, i) == s
    decreases |s|
  {
    if s != "" {
      assert a[i] == s[0];
      forall k | 0 <= k < |s[1..]|
        ensures a[i + 1 + k] == s[1..][k]
      {
        assert a[i + (k + 1)] == s[k + 1];
      }
      TextIs(a, i + 1, s[1..]);
    }
  }
}
