/** Parts are given to owners, and each owner joins the parts it got in order. */
module Shares {
  /** How many times `t` occurs. */
  function Count<T(==)>(s: seq<T>, t: T): nat {
    if s == [] then 0 else Count(s[..|s| - 1], t) + if s[|s| - 1] == t then 1 else 0
  }

  lemma {:induction false} CountJoined<T>(s: seq<T>, s': seq<T>, t: T)
    ensures Count(s + s', t) == Count(s, t) + Count(s', t)
  {
    if s' == [] {
      assert s + s' == s;
    } else {
      var k := |s'| - 1;
      assert (s + s')[..|s| + k] == s + s'[..k];
      CountJoined(s, s'[..k], t);
    }
  }

  /** What owner `m` gets of the first `k` parts. */
  function Collect<T>(parts: seq<seq<T>>, owners: seq<set<nat>>, m: nat, k: nat): seq<T>
    requires k <= |parts| == |owners|
  {
    if k == 0 then []
    else if m in owners[k - 1] then Collect(parts, owners, m, k - 1) + parts[k - 1]
    else Collect(parts, owners, m, k - 1)
  }

  /** The parts that have an owner, one after the other. */
  function Owned<T>(parts: seq<seq<T>>, owners: seq<set<nat>>, k: nat): seq<T>
    requires k <= |parts| == |owners|
  {
    if k == 0 then []
    else if owners[k - 1] != {} then Owned(parts, owners, k - 1) + parts[k - 1]
    else Owned(parts, owners, k - 1)
  }

  /** How many times `t` occurs in what the owners below `n` have. */
  function Output<T(==)>(parts: seq<seq<T>>, owners: seq<set<nat>>, n: nat, t: T): nat
    requires |parts| == |owners|
  {
    if n == 0 then 0 else Output(parts, owners, n - 1, t) + Count(Collect(parts, owners, n - 1, |parts|), t)
  }

  function Times(n: nat, c: nat): nat {
    if n == 0 then 0 else Times(n - 1, c) + c
  }

  /** How many times `t` occurs in the first `k` parts, each taken as often as it has owners. */
  function Input<T(==)>(parts: seq<seq<T>>, owners: seq<set<nat>>, k: nat, t: T): nat
    requires k <= |parts| == |owners|
  {
    if k == 0 then 0 else Input(parts, owners, k - 1, t) + Times(|owners[k - 1]|, Count(parts[k - 1], t))
  }

  ghost predicate OwnersBelow(owners: seq<set<nat>>, n: nat) {
    forall i :: 0 <= i < |owners| ==> forall m :: m in owners[i] ==> m < n
  }

  // The same in numbers: part `i` has `c[i]` of the things that are counted

  function Held(c: seq<nat>, owners: seq<set<nat>>, m: nat, k: nat): nat
    requires k <= |c| == |owners|
  {
    if k == 0 then 0 else Held(c, owners, m, k - 1) + if m in owners[k - 1] then c[k - 1] else 0
  }

  function AllHeld(c: seq<nat>, owners: seq<set<nat>>, n: nat, k: nat): nat
    requires k <= |c| == |owners|
  {
    if n == 0 then 0 else AllHeld(c, owners, n - 1, k) + Held(c, owners, n - 1, k)
  }

  function Below(s: set<nat>, n: nat): set<nat> {
    set m | m in s && m < n
  }

  function Given(c: seq<nat>, owners: seq<set<nat>>, n: nat, k: nat): nat
    requires k <= |c| == |owners|
  {
    if k == 0 then 0 else Given(c, owners, n, k - 1) + Times(|Below(owners[k - 1], n)|, c[k - 1])
  }

  lemma OneMoreOwner(s: set<nat>, n: nat)
    ensures |Below(s, n + 1)| == |Below(s, n)| + if n in s then 1 else 0
  {
    assert Below(s, n + 1) == if n in s then Below(s, n) + {n} else Below(s, n);
  }

  lemma {:induction false} OneMorePart(c: seq<nat>, owners: seq<set<nat>>, n: nat, k: nat)
    requires k < |c| == |owners|
    ensures AllHeld(c, owners, n, k + 1) == AllHeld(c, owners, n, k) + Times(|Below(owners[k], n)|, c[k])
  {
    if n == 0 {
      assert Below(owners[k], 0) == {};
    } else {
      OneMorePart(c, owners, n - 1, k);
      OneMoreOwner(owners[k], n - 1);
    }
  }

  lemma {:induction false} HeldIsGiven(c: seq<nat>, owners: seq<set<nat>>, n: nat, k: nat)
    requires k <= |c| == |owners|
    ensures AllHeld(c, owners, n, k) == Given(c, owners, n, k)
  {
    if k > 0 {
      HeldIsGiven(c, owners, n, k - 1);
      OneMorePart(c, owners, n, k - 1);
    } else if n > 0 {
      HeldIsGiven(c, owners, n - 1, 0);
    }
  }

  // And back

  function Counts<T(==)>(parts: seq<seq<T>>, t: T): (c: seq<nat>)
    ensures |c| == |parts|
  {
    seq(|parts|, i requires 0 <= i < |parts| => Count(parts[i], t))
  }

  lemma {:induction false} CountCollected<T>(parts: seq<seq<T>>, owners: seq<set<nat>>, m: nat, k: nat, t: T)
    requires k <= |parts| == |owners|
    ensures Count(Collect(parts, owners, m, k), t) == Held(Counts(parts, t), owners, m, k)
  {
    if k > 0 {
      CountCollected(parts, owners, m, k - 1, t);
      CountJoined(Collect(parts, owners, m, k - 1), parts[k - 1], t);
    }
  }

  lemma {:induction false} OutputIsHeld<T>(parts: seq<seq<T>>, owners: seq<set<nat>>, n: nat, t: T)
    requires |parts| == |owners|
    ensures Output(parts, owners, n, t) == AllHeld(Counts(parts, t), owners, n, |parts|)
  {
    if n > 0 {
      OutputIsHeld(parts, owners, n - 1, t);
      CountCollected(parts, owners, n - 1, |parts|, t);
    }
  }

  lemma {:induction false} InputIsGiven<T>(parts: seq<seq<T>>, owners: seq<set<nat>>, n: nat, k: nat, t: T)
    requires k <= |parts| == |owners| && OwnersBelow(owners, n)
    ensures Input(parts, owners, k, t) == Given(Counts(parts, t), owners, n, k)
  {
    if k > 0 {
      InputIsGiven(parts, owners, n, k - 1, t);
      assert Below(owners[k - 1], n) == owners[k - 1];
    }
  }

  /** Nothing is lost and nothing is made up. */
  lemma Conservation<T>(parts: seq<seq<T>>, owners: seq<set<nat>>, n: nat, t: T)
    requires |parts| == |owners| && OwnersBelow(owners, n)
    ensures Output(parts, owners, n, t) == Input(parts, owners, |parts|, t)
  {
    OutputIsHeld(parts, owners, n, t);
    HeldIsGiven(Counts(parts, t), owners, n, |parts|);
    InputIsGiven(parts, owners, n, |parts|, t);
  }

  /** If no part has two owners, the owners together have each owned part once. */
  lemma {:induction false} EachPartOnce<T>(parts: seq<seq<T>>, owners: seq<set<nat>>, k: nat, t: T)
    requires k <= |parts| == |owners| && forall i :: 0 <= i < |owners| ==> |owners[i]| <= 1
    ensures Input(parts, owners, k, t) == Count(Owned(parts, owners, k), t)
  {
    if k > 0 {
      EachPartOnce(parts, owners, k - 1, t);
      CountJoined(Owned(parts, owners, k - 1), parts[k - 1], t);
      if owners[k - 1] != {} {
        assert |owners[k - 1]| == 1;
        Once(Count(parts[k - 1], t));
      }
    }
  }

  lemma Once(c: nat)
    ensures Times(1, c) == c
  {
    assert Times(0, c) == 0;
  }
}
