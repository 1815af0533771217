/** Path strings: how the virtual file system cuts a path into components, and the
    canonical string of a component sequence. */
module Paths {
  type Path = seq<string>

  // What every tree node's name satisfies.
  predicate ValidName(n: string, sep: char) {
    n != [] && sep !in n
  }

  predicate ValidPath(p: Path, sep: char) {
    forall i :: 0 <= i < |p| ==> ValidName(p[i], sep)
  }

  function Init(p: Path): Path
    requires p != []
  {
    p[..|p| - 1]
  }

  function Last(p: Path): string
    requires p != []
  {
    p[|p| - 1]
  }

  function Reverse(s: string): (r: string) {
    if s == [] then [] else Reverse(s[1..]) + [s[0]]
  }

  // The splitting of the library call: one token between any two separators.
  function Tokens(s: string, sep: char): (t: seq<string>)
    ensures t != []
  {
    if s == [] then [[]]
    else
      var t := Tokens(s[1..], sep);
      if s[0] == sep then [[]] + t else [[s[0]] + t[0]] + t[1..]
  }

  function DropEmpty(t: seq<string>): seq<string> {
    if t == [] then []
    else if t[0] == [] then DropEmpty(t[1..])
    else [t[0]] + DropEmpty(t[1..])
  }

  function Components(s: string, sep: char): Path {
    DropEmpty(Tokens(s, sep))
  }

  // Every component preceded by one separator.
  function Canonical(p: Path, sep: char): string {
    if p == [] then [] else [sep] + p[0] + Canonical(p[1..], sep)
  }

  // Every component followed by one separator.
  function Trail(p: Path, sep: char): string {
    if p == [] then [] else p[0] + [sep] + Trail(p[1..], sep)
  }

  // The tokens with one separator between neighbours.
  function Join(t: seq<string>, sep: char): string
    requires t != []
  {
    if |t| == 1 then t[0] else t[0] + [sep] + Join(t[1..], sep)
  }

  lemma {:induction false} ReverseSnoc(a: string, b: string)
    ensures Reverse(a + b) == Reverse(b) + Reverse(a)
  {
    if a == [] {
      assert a + b == b;
    } else {
      ReverseSnoc(a[1..], b);
      assert (a + b)[1..] == a[1..] + b;
    }
  }

  lemma {:induction false} ReverseTwice(s: string)
    ensures Reverse(Reverse(s)) == s
  {
    if s != [] {
      ReverseSnoc(Reverse(s[1..]), [s[0]]);
      ReverseTwice(s[1..]);
      assert Reverse([s[0]]) == [s[0]];
    }
  }

  // The tokens are the only way to write s as separator-free strings joined by separators.
  lemma {:induction false} TokensJoin(s: string, sep: char)
    ensures Join(Tokens(s, sep), sep) == s
    ensures forall i :: 0 <= i < |Tokens(s, sep)| ==> sep !in Tokens(s, sep)[i]
  {
    if s != [] {
      TokensJoin(s[1..], sep);
      var t := Tokens(s[1..], sep);
      if s[0] == sep {
        assert ([[]] + t)[1..] == t;
      } else {
        var u := [[s[0]] + t[0]] + t[1..];
        assert u[1..] == t[1..];
        assert s == [s[0]] + s[1..];
      }
    }
  }

  lemma {:induction false} JoinTokens(t: seq<string>, sep: char)
    requires t != [] && forall i :: 0 <= i < |t| ==> sep !in t[i]
    ensures Tokens(Join(t, sep), sep) == t
    decreases |t|, |t[0]|
  {
    if t[0] != [] {
      var u := [t[0][1..]] + t[1..];
      JoinTokens(u, sep);
      assert u[1..] == t[1..];
      assert [t[0][0]] + u[0] == t[0];
      assert Join(t, sep) == [t[0][0]] + Join(u, sep);
      assert Join(t, sep)[1..] == Join(u, sep);
      assert t[0][0] in t[0];
      assert [[t[0][0]] + u[0]] + u[1..] == t;
    } else if |t| > 1 {
      JoinTokens(t[1..], sep);
      assert Join(t, sep) == [sep] + Join(t[1..], sep);
      assert [[]] + t[1..] == t;
    }
  }

  lemma {:induction false} DropEmptyKeeps(t: seq<string>, sep: char)
    requires forall i :: 0 <= i < |t| ==> sep !in t[i]
    ensures ValidPath(DropEmpty(t), sep)
  {
    if t != [] {
      DropEmptyKeeps(t[1..], sep);
    }
  }

  lemma ComponentsValid(s: string, sep: char)
    ensures ValidPath(Components(s, sep), sep)
  {
    TokensJoin(s, sep);
    DropEmptyKeeps(Tokens(s, sep), sep);
  }

  // A character in front of some tokens and others behind them.
  lemma TokenBefore(c: char, t: seq<string>, u: seq<string>, sep: char)
    requires t != []
    ensures if c == sep then [[]] + (t + u) == [[]] + t + u
            else [[c] + (t + u)[0]] + (t + u)[1..] == [[c] + t[0]] + t[1..] + u
  {
  }

  lemma {:induction false} TokensConcat(a: string, b: string, sep: char)
    ensures Tokens(a + [sep] + b, sep) == Tokens(a, sep) + Tokens(b, sep)
  {
    var s := a + [sep] + b;
    if a == [] {
      assert s == [sep] + b && s[1..] == b;
    } else {
      TokensConcat(a[1..], b, sep);
      assert s[0] == a[0] && s[1..] == a[1..] + [sep] + b;
      TokenBefore(a[0], Tokens(a[1..], sep), Tokens(b, sep), sep);
    }
  }

  lemma {:induction false} DropEmptyConcat(t: seq<string>, u: seq<string>)
    ensures DropEmpty(t + u) == DropEmpty(t) + DropEmpty(u)
  {
    if t == [] {
      assert t + u == u;
    } else {
      DropEmptyConcat(t[1..], u);
      assert (t + u)[0] == t[0] && (t + u)[1..] == t[1..] + u;
      assert [t[0]] + (DropEmpty(t[1..]) + DropEmpty(u)) == [t[0]] + DropEmpty(t[1..]) + DropEmpty(u);
    }
  }

  // Splitting at any separator splits the components there. With the next lemma, which says
  // what a string without one is split into, this fixes the components of every string.
  lemma ComponentsConcat(a: string, b: string, sep: char)
    ensures Components(a + [sep] + b, sep) == Components(a, sep) + Components(b, sep)
  {
    TokensConcat(a, b, sep);
    DropEmptyConcat(Tokens(a, sep), Tokens(b, sep));
  }

  lemma ComponentsOfName(n: string, sep: char)
    requires sep !in n
    ensures Components(n, sep) == if n == [] then [] else [n]
  {
    JoinTokens([n], sep);
    assert DropEmpty([n]) == if n == [] then [] else [n];
  }

  lemma {:induction false} DropEmptyFull(p: Path, sep: char)
    requires ValidPath(p, sep)
    ensures DropEmpty(p) == p
  {
    if p != [] {
      assert ValidPath(p[1..], sep);
      DropEmptyFull(p[1..], sep);
    }
  }

  lemma {:induction false} CanonicalIsJoin(p: Path, sep: char)
    ensures Canonical(p, sep) == Join([[]] + p, sep)
  {
    if p != [] {
      CanonicalIsJoin(p[1..], sep);
      assert ([[]] + p)[1..] == p;
      if |p| > 1 {
        assert ([[]] + p[1..])[1..] == p[1..];
      }
    }
  }

  // Splitting the canonical string of a valid component sequence gives it back.
  lemma ComponentsOfCanonical(p: Path, sep: char)
    requires ValidPath(p, sep)
    ensures Components(Canonical(p, sep), sep) == p
  {
    CanonicalIsJoin(p, sep);
    var t := [[]] + p;
    forall i | 0 <= i < |t| ensures sep !in t[i] {
      assert i > 0 ==> ValidName(p[i - 1], sep);
    }
    JoinTokens(t, sep);
    assert t[1..] == p;
    DropEmptyFull(p, sep);
  }

  lemma CanonicalInjective(p: Path, q: Path, sep: char)
    requires ValidPath(p, sep) && ValidPath(q, sep)
    requires Canonical(p, sep) == Canonical(q, sep)
    ensures p == q
  {
    ComponentsOfCanonical(p, sep);
    ComponentsOfCanonical(q, sep);
  }

  lemma {:induction false} CanonicalSnoc(p: Path, n: string, sep: char)
    ensures Canonical(p + [n], sep) == Canonical(p, sep) + [sep] + n
  {
    if p == [] {
      assert p + [n] == [n];
    } else {
      CanonicalSnoc(p[1..], n, sep);
      assert (p + [n])[1..] == p[1..] + [n];
    }
  }

  lemma {:induction false} TrailCanonical(p: Path, sep: char)
    ensures [sep] + Trail(p, sep) == Canonical(p, sep) + [sep]
  {
    if p != [] {
      TrailCanonical(p[1..], sep);
      calc {
        [sep] + Trail(p, sep);
        [sep] + p[0] + ([sep] + Trail(p[1..], sep));
        [sep] + p[0] + (Canonical(p[1..], sep) + [sep]);
        Canonical(p, sep) + [sep];
      }
    }
  }

  // A path string a caller can recognise as canonical by looking at its characters.
  predicate WellFormed(s: string, sep: char) {
    s == [] ||
    (s[0] == sep && s[|s| - 1] != sep &&
     forall i :: 0 <= i < |s| - 1 ==> !(s[i] == sep && s[i + 1] == sep))
  }

  // Tokens of a string without leading, trailing or doubled separators are never empty.
  lemma {:induction false} TokensFull(s: string, sep: char)
    requires s != [] && s[|s| - 1] != sep
    requires forall i :: 0 <= i < |s| - 1 ==> !(s[i] == sep && s[i + 1] == sep)
    ensures forall i :: 1 <= i < |Tokens(s, sep)| ==> Tokens(s, sep)[i] != []
    ensures Tokens(s, sep)[0] == [] <==> s[0] == sep
  {
    if |s| > 1 {
      var u := s[1..];
      forall i | 0 <= i < |u| - 1 ensures !(u[i] == sep && u[i + 1] == sep) {
        assert u[i] == s[i + 1] && u[i + 1] == s[i + 2];
      }
      assert u[|u| - 1] == s[|s| - 1];
      TokensFull(u, sep);
      assert !(s[0] == sep && s[0 + 1] == sep);
      assert u[0] == s[1];
    } else {
      assert Tokens(s[1..], sep) == [[]];
    }
  }

  lemma {:induction false} DropEmptySame(t: seq<string>)
    requires forall i :: 0 <= i < |t| ==> t[i] != []
    ensures DropEmpty(t) == t
  {
    if t != [] {
      DropEmptySame(t[1..]);
    }
  }

  lemma {:induction false} CanonicalShape(p: Path, sep: char)
    requires ValidPath(p, sep)
    ensures WellFormed(Canonical(p, sep), sep)
  {
    if p != [] {
      var n := p[0];
      assert ValidName(n, sep);
      assert ValidPath(p[1..], sep);
      CanonicalShape(p[1..], sep);
      var rest := Canonical(p[1..], sep);
      var s := Canonical(p, sep);
      assert s == [sep] + n + rest;
      assert forall i :: 1 <= i <= |n| ==> s[i] == n[i - 1];
      assert forall i :: 0 <= i < |rest| ==> s[1 + |n| + i] == rest[i];
      forall i | 0 <= i < |s| - 1 ensures !(s[i] == sep && s[i + 1] == sep) {
        if i > |n| {
          assert s[i] == rest[i - 1 - |n|] && s[i + 1] == rest[i - |n|];
        } else if 1 <= i {
          assert s[i] == n[i - 1];
        } else {
          assert s[1] == n[0];
        }
      }
      if rest == [] {
        assert s[|s| - 1] == n[|n| - 1];
      } else {
        assert s[|s| - 1] == rest[|rest| - 1];
      }
    }
  }

  // The path string a client sends is the canonical string of its own components
  // exactly when it is well formed.
  lemma CanonicalIff(s: string, sep: char)
    ensures Canonical(Components(s, sep), sep) == s <==> WellFormed(s, sep)
  {
    if s == [] {
      assert Components(s, sep) == DropEmpty([[]]) == [];
    } else if WellFormed(s, sep) {
      TokensFull(s, sep);
      var t := Tokens(s, sep);
      assert t[0] == [];
      assert forall i :: 0 <= i < |t[1..]| ==> t[1..][i] == t[i + 1];
      DropEmptySame(t[1..]);
      assert [[]] + t[1..] == t;
      assert Components(s, sep) == t[1..];
      CanonicalIsJoin(t[1..], sep);
      TokensJoin(s, sep);
    }
    ComponentsValid(s, sep);
    CanonicalShape(Components(s, sep), sep);
  }

  // The scan from the end for the last separator: what follows it is the last token.
  method Filename(path: string, sep: char) returns (name: string)
    ensures name == Last(Tokens(path, sep))
    ensures sep !in name
    ensures exists k :: 0 <= k <= |path| && name == path[k..] && (k == 0 || path[k - 1] == sep)
  {
    var k := |path|;
    while k > 0 && path[k - 1] != sep
      invariant 0 <= k <= |path|
      invariant sep !in path[k..]
    {
      assert path[k - 1..] == [path[k - 1]] + path[k..];
      k := k - 1;
    }
    name := path[k..];
    LastToken(path, k, sep);
  }

  lemma {:induction false} LastToken(s: string, k: nat, sep: char)
    requires k <= |s| && sep !in s[k..] && (k == 0 || s[k - 1] == sep)
    ensures Last(Tokens(s, sep)) == s[k..]
  {
    if k == 0 {
      assert s[k..] == s;
      JoinTokens([s], sep);
    } else {
      LastTokenAfter(s, k, sep);
    }
  }

  lemma {:induction false} LastTokenAfter(s: string, k: nat, sep: char)
    requires 0 < k <= |s| && sep !in s[k..] && s[k - 1] == sep
    ensures |Tokens(s, sep)| >= 2 && Last(Tokens(s, sep)) == s[k..]
  {
    var t := Tokens(s[1..], sep);
    if k == 1 {
      JoinTokens([s[1..]], sep);
      assert t == [s[1..]];
    } else {
      assert s[1..][k - 1..] == s[k..];
      LastTokenAfter(s[1..], k - 1, sep);
    }
  }
}
