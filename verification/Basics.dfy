/** Shared vocabulary: optional values and the order C++ gives to `std::string`. */
module Basics {

  datatype Option<+T> = None | Some(value: T)

  lemma Unit<T>(a: seq<T>)
    ensures [] + a == a && a + [] == a
  {
  }

  lemma Uncons<T>(s: seq<T>, n: nat)
    requires n < |s|
    ensures s[n..] == [s[n]] + s[n + 1..]
  {
  }

  lemma Drop<T>(a: seq<T>, b: seq<T>)
    ensures (a + b)[|a|..] == b
  {
  }

  /** Where a cut through two blocks falls. */
  lemma Cut<T>(a: seq<T>, b: seq<T>, k: nat)
    requires k <= |a| + |b|
    ensures k <= |a| ==> (a + b)[..k] == a[..k]
    ensures k >= |a| ==> (a + b)[..k] == a + b[..k - |a|]
  {
  }

  lemma Assoc<T>(a: seq<T>, b: seq<T>, c: seq<T>)
    ensures (a + b) + c == a + (b + c)
  {
  }

  /** One more than the largest 64-bit word. */
  const WORD := 0x1_0000_0000_0000_0000

  predicate IsDigit(c: char) {
    '0' <= c <= '9'
  }

  /** The character does not occur. */
  predicate Avoids(s: string, c: char) {
    forall i | 0 <= i < |s| :: s[i] != c
  }

  /** Lexicographic order on strings, as `std::map<std::string, ...>` uses it. */
  predicate LexLess(a: string, b: string) {
    |b| > 0 && (|a| == 0 || a[0] < b[0] || (a[0] == b[0] && LexLess(a[1..], b[1..])))
  }

  lemma {:induction false} LexTrichotomy(a: string, b: string)
    ensures a == b || LexLess(a, b) || LexLess(b, a)
    ensures !(LexLess(a, b) && LexLess(b, a)) && !LexLess(a, a)
  {
    if |a| > 0 && |b| > 0 {
      LexTrichotomy(a[1..], b[1..]);
      assert a == [a[0]] + a[1..] && b == [b[0]] + b[1..];
    }
    if |a| > 0 {
      LexIrreflexive(a);
    }
  }

  lemma LexIrreflexive(a: string)
    ensures !LexLess(a, a)
  {
  }

  lemma {:induction false} LexTransitive(a: string, b: string, c: string)
    requires LexLess(a, b) && LexLess(b, c)
    ensures LexLess(a, c)
  {
    if |a| > 0 && a[0] == b[0] && b[0] == c[0] {
      LexTransitive(a[1..], b[1..], c[1..]);
    }
  }

  /** Strings that start with equally long blocks compare block by block. */
  lemma {:induction false} LexBlocks(a: string, x: string, b: string, y: string)
    requires |a| == |b|
    ensures LexLess(a + x, b + y) <==> LexLess(a, b) || (a == b && LexLess(x, y))
  {
    if |a| == 0 {
      assert a + x == x && b + y == y;
    } else {
      assert (a + x)[1..] == a[1..] + x && (b + y)[1..] == b[1..] + y;
      assert a == [a[0]] + a[1..] && b == [b[0]] + b[1..];
      LexBlocks(a[1..], x, b[1..], y);
    }
  }

  predicate IsFirst(k: string, keys: set<string>) {
    k in keys && forall j | j in keys && j != k :: LexLess(k, j)
  }

  /** Every non-empty finite set of keys has a first one: where map iteration begins. */
  lemma {:induction false} FirstExists(keys: set<string>) returns (k: string)
    requires keys != {}
    ensures IsFirst(k, keys)
    decreases keys
  {
    var x :| x in keys;
    if keys == {x} {
      k := x;
    } else {
      var y := FirstExists(keys - {x});
      LexTrichotomy(x, y);
      k := if LexLess(x, y) then x else y;
      forall j | j in keys && j != k
        ensures LexLess(k, j)
      {
        if k == x && j != y {
          LexTransitive(x, y, j);
        }
      }
    }
  }

  lemma FirstIsUnique(j: string, k: string, keys: set<string>)
    requires IsFirst(j, keys) && IsFirst(k, keys)
    ensures j == k
  {
    LexTrichotomy(j, k);
  }

  // ------------------------------------------------ runs of a state machine

  /** The steps lead from `s` to `end`; `next` says what an enabled step does. */
  ghost predicate Run<S(!new), T(!new)>(next: (S, T) -> Option<S>, s: S, steps: seq<T>, end: S)
    decreases |steps|
  {
    if |steps| == 0 then s == end
    else next(s, steps[0]).Some? && Run(next, next(s, steps[0]).value, steps[1..], end)
  }

  lemma RunNothing<S(!new), T(!new)>(next: (S, T) -> Option<S>, s: S)
    ensures Run(next, s, [], s)
  {
  }

  lemma RunNothingEnds<S(!new), T(!new)>(next: (S, T) -> Option<S>, s: S, steps: seq<T>, end: S)
    requires Run(next, s, steps, end) && steps == []
    ensures end == s
  {
  }

  lemma RunOne<S(!new), T(!new)>(next: (S, T) -> Option<S>, s: S, step: T)
    requires next(s, step).Some?
    ensures Run(next, s, [step], next(s, step).value)
  {
    assert [step][1..] == [];
  }

  lemma {:induction false} RunOn<S(!new), T(!new)>(
    next: (S, T) -> Option<S>, s: S, steps: seq<T>, mid: S, more: seq<T>, end: S)
    requires Run(next, s, steps, mid) && Run(next, mid, more, end)
    ensures Run(next, s, steps + more, end)
    decreases |steps|
  {
    if |steps| == 0 {
      Unit(more);
    } else {
      RunOn(next, next(s, steps[0]).value, steps[1..], mid, more, end);
      assert (steps + more)[1..] == steps[1..] + more;
    }
  }

  lemma RunFurther<S(!new), T(!new)>(
    next: (S, T) -> Option<S>, s: S, steps: seq<T>, mid: S, step: T, end: S) returns (longer: seq<T>)
    requires Run(next, s, steps, mid) && next(mid, step) == Some(end)
    ensures Run(next, s, longer, end) && longer == steps + [step]
  {
    RunOne(next, mid, step);
    RunOn(next, s, steps, mid, [step], end);
    longer := steps + [step];
  }

  /** A run seen from its end. */
  lemma {:induction false} RunLast<S(!new), T(!new)>(next: (S, T) -> Option<S>, s: S, steps: seq<T>, end: S)
    returns (mid: S)
    requires Run(next, s, steps, end) && |steps| > 0
    ensures Run(next, s, steps[..|steps| - 1], mid) && next(mid, steps[|steps| - 1]) == Some(end)
    decreases |steps|
  {
    if |steps| == 1 {
      mid := s;
    } else {
      mid := RunLast(next, next(s, steps[0]).value, steps[1..], end);
      assert steps[1..][..|steps| - 2] == steps[..|steps| - 1][1..];
    }
  }

  /** What every step keeps, every run keeps. */
  lemma {:induction false} RunKeeps<S(!new), T(!new)>(
    next: (S, T) -> Option<S>, inv: S -> bool, s: S, steps: seq<T>, end: S)
    requires forall a, step | inv(a) && next(a, step).Some? :: inv(next(a, step).value)
    requires inv(s) && Run(next, s, steps, end)
    ensures inv(end)
    decreases |steps|
  {
    if |steps| > 0 {
      RunKeeps(next, inv, next(s, steps[0]).value, steps[1..], end);
    }
  }
}
