// The bounded LRU caches of the stream de-dup, most recent entry first.

module Lru {
  import opened Chain

  datatype Op = Put(h: Hash) | Pop(h: Hash)

  ghost predicate Distinct(c: seq<Hash>) {
    forall i, j :: 0 <= i < j < |c| ==> c[i] != c[j]
  }

  ghost predicate IsCache(c: seq<Hash>, cap: nat) {
    Distinct(c) && |c| <= cap
  }

  function Take(c: seq<Hash>, n: nat): seq<Hash> {
    if |c| <= n then c else c[..n]
  }

  function Remove(c: seq<Hash>, h: Hash): (r: seq<Hash>)
    ensures |r| <= |c|
    ensures forall x :: x in r ==> x in c
  {
    if c == [] then [] else if c[0] == h then c[1..] else [c[0]] + Remove(c[1..], h)
  }

  /** `put` moves or adds to the front and evicts the oldest entry; `pop` removes. */
  function Apply1(c: seq<Hash>, op: Op, cap: nat): seq<Hash> {
    match op
    case Put(h) => Take([h] + Remove(c, h), cap)
    case Pop(h) => Remove(c, h)
  }

  function Apply(c: seq<Hash>, ops: seq<Op>, cap: nat): seq<Hash> {
    if ops == [] then c else Apply1(Apply(c, ops[..|ops| - 1], cap), ops[|ops| - 1], cap)
  }

  // ---- Shape ----

  lemma {:induction false} RemoveDistinct(c: seq<Hash>, h: Hash)
    requires Distinct(c)
    ensures Distinct(Remove(c, h)) && h !in Remove(c, h)
    ensures forall x :: x in c && x != h ==> x in Remove(c, h)
    ensures h in c ==> |Remove(c, h)| == |c| - 1
    ensures h !in c ==> Remove(c, h) == c
  {
    if c != [] && c[0] != h {
      RemoveDistinct(c[1..], h);
      var rest := Remove(c[1..], h);
      assert c[0] !in rest;
      assert Remove(c, h) == [c[0]] + rest;
    }
  }

  lemma Apply1IsCache(c: seq<Hash>, op: Op, cap: nat)
    requires IsCache(c, cap)
    ensures IsCache(Apply1(c, op, cap), cap)
  {
    RemoveDistinct(c, op.h);
  }

  lemma {:induction false} ApplyIsCache(c: seq<Hash>, ops: seq<Op>, cap: nat)
    requires IsCache(c, cap)
    ensures IsCache(Apply(c, ops, cap), cap)
    decreases |ops|
  {
    if ops != [] {
      ApplyIsCache(c, ops[..|ops| - 1], cap);
      Apply1IsCache(Apply(c, ops[..|ops| - 1], cap), ops[|ops| - 1], cap);
    }
  }

  lemma {:induction false} ApplyConcat(c: seq<Hash>, a: seq<Op>, b: seq<Op>, cap: nat)
    ensures Apply(c, a + b, cap) == Apply(Apply(c, a, cap), b, cap)
    decreases |b|
  {
    if b == [] {
      assert a + b == a;
    } else {
      var rest := b[..|b| - 1];
      assert (a + b)[..|a + b| - 1] == a + rest;
      ApplyConcat(c, a, rest, cap);
    }
  }

  // ---- A shorter memory stays a recency prefix of a longer one ----

  lemma {:induction false} RemoveConcat(a: seq<Hash>, b: seq<Hash>, h: Hash)
    ensures Remove(a + b, h) == if h in a then Remove(a, h) + b else a + Remove(b, h)
  {
    if a == [] {
      assert a + b == b && a + Remove(b, h) == Remove(b, h);
    } else {
      var head, rest := [a[0]], a[1..];
      assert a == head + rest && (a + b)[0] == a[0] && (a + b)[1..] == rest + b;
      if a[0] != h {
        RemoveConcat(rest, b, h);
        assert h in a <==> h in rest;
        assert head + (Remove(rest, h) + b) == head + Remove(rest, h) + b;
        assert head + (rest + Remove(b, h)) == a + Remove(b, h);
      }
    }
  }

  lemma RemovePrefix(a: seq<Hash>, b: seq<Hash>, h: Hash)
    requires a <= b && Distinct(b)
    ensures Remove(a, h) <= Remove(b, h)
  {
    var rest := b[|a|..];
    assert b == a + rest;
    RemoveConcat(a, rest, h);
    RemoveDistinct(a, h);
  }

  lemma Apply1Prefix(a: seq<Hash>, b: seq<Hash>, op: Op, cap: nat)
    requires a <= b && IsCache(b, cap)
    ensures Apply1(a, op, cap) <= Apply1(b, op, cap)
  {
    RemovePrefix(a, b, op.h);
  }

  /** Put, evict and pop all preserve the recency prefix. */
  lemma {:induction false} ApplyPrefix(a: seq<Hash>, b: seq<Hash>, ops: seq<Op>, cap: nat)
    requires a <= b && IsCache(b, cap)
    ensures Apply(a, ops, cap) <= Apply(b, ops, cap)
    decreases |ops|
  {
    if ops != [] {
      var rest := ops[..|ops| - 1];
      ApplyPrefix(a, b, rest, cap);
      ApplyIsCache(b, rest, cap);
      Apply1Prefix(Apply(a, rest, cap), Apply(b, rest, cap), ops[|ops| - 1], cap);
    }
  }

  /** Folding a suffix of a history remembers a recency prefix of folding all of it. */
  lemma SuffixRemembersLess(ops: seq<Op>, k: nat, cap: nat)
    requires k <= |ops|
    ensures Apply([], ops[k..], cap) <= Apply([], ops, cap)
  {
    assert ops == ops[..k] + ops[k..];
    ApplyConcat([], ops[..k], ops[k..], cap);
    ApplyIsCache([], ops[..k], cap);
    ApplyPrefix([], Apply([], ops[..k], cap), ops[k..], cap);
  }

  // ---- How long an entry is remembered ----

  ghost predicate Within(c: seq<Hash>, h: Hash, r: int) {
    exists i :: 0 <= i <= r && i < |c| && c[i] == h
  }

  function Puts(ops: seq<Op>): nat {
    if ops == [] then 0 else Puts(ops[..|ops| - 1]) + if ops[|ops| - 1].Put? then 1 else 0
  }

  ghost predicate NeverPopped(ops: seq<Op>, h: Hash) {
    forall k :: 0 <= k < |ops| ==> ops[k] != Pop(h)
  }

  /** Removing another entry never pushes `h` back. */
  lemma {:induction false} RemoveOther(c: seq<Hash>, h: Hash, x: Hash, i: nat)
    requires i < |c| && c[i] == h && x != h
    ensures Within(Remove(c, x), h, i)
  {
    if c[0] == x {
      assert i > 0 && c[1..][i - 1] == h;
    } else if i > 0 {
      RemoveOther(c[1..], h, x, i - 1);
      var j :| 0 <= j <= i - 1 && j < |Remove(c[1..], x)| && Remove(c[1..], x)[j] == h;
      assert Remove(c, x)[j + 1] == h;
    } else {
      assert Remove(c, x)[0] == h;
    }
  }

  /** One operation pushes an entry back by at most one, and only a put does. */
  lemma Apply1Within(c: seq<Hash>, op: Op, h: Hash, r: int, cap: nat)
    requires Within(c, h, r) && op != Pop(h)
    requires r + (if op.Put? then 1 else 0) < cap
    ensures Within(Apply1(c, op, cap), h, r + if op.Put? then 1 else 0)
  {
    if op == Put(h) {
      assert Apply1(c, op, cap)[0] == h;
    } else {
      var i :| 0 <= i <= r && i < |c| && c[i] == h;
      RemoveOther(c, h, op.h, i);
      var j :| 0 <= j <= i && j < |Remove(c, op.h)| && Remove(c, op.h)[j] == h;
      if op.Put? {
        assert ([op.h] + Remove(c, op.h))[j + 1] == h;
        assert Apply1(c, op, cap)[j + 1] == h;
      }
    }
  }

  lemma {:induction false} ApplyWithin(c: seq<Hash>, ops: seq<Op>, h: Hash, r: nat, cap: nat)
    requires Within(c, h, r) && NeverPopped(ops, h) && r + Puts(ops) < cap
    ensures Within(Apply(c, ops, cap), h, r + Puts(ops))
    decreases |ops|
  {
    if ops != [] {
      var rest := ops[..|ops| - 1];
      ApplyWithin(c, rest, h, r, cap);
      Apply1Within(Apply(c, rest, cap), ops[|ops| - 1], h, r + Puts(rest), cap);
    }
  }

  lemma PutIsFirst(c: seq<Hash>, h: Hash, cap: nat)
    requires cap > 0
    ensures Within(Apply1(c, Put(h), cap), h, 0)
  {
    assert Apply1(c, Put(h), cap)[0] == h;
  }

  lemma {:induction false} PutsConcat(a: seq<Op>, b: seq<Op>)
    ensures Puts(a + b) == Puts(a) + Puts(b)
    decreases |b|
  {
    if b == [] {
      assert a + b == a;
    } else {
      assert (a + b)[..|a + b| - 1] == a + b[..|b| - 1];
      PutsConcat(a, b[..|b| - 1]);
    }
  }

  /** An entry put at `ops[k]` is still there while fewer than `cap` puts, its own included, have followed. */
  lemma PutIsRemembered(c: seq<Hash>, ops: seq<Op>, k: nat, h: Hash, cap: nat)
    requires k < |ops| && ops[k] == Put(h) && NeverPopped(ops[k + 1..], h) && Puts(ops[k..]) <= cap
    ensures Within(Apply(c, ops, cap), h, Puts(ops[k..]) - 1)
  {
    var before, after := ops[..k], ops[k + 1..];
    assert ops == before + [Put(h)] + after;
    assert ops[k..] == [Put(h)] + after;
    PutsConcat([Put(h)], after);
    assert Puts([Put(h)]) == 1;
    ApplyConcat(c, before + [Put(h)], after, cap);
    assert (before + [Put(h)])[..k] == before;
    PutIsFirst(Apply(c, before, cap), h, cap);
    ApplyWithin(Apply(c, before + [Put(h)], cap), after, h, 0, cap);
  }
}
