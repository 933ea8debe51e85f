/**
 * The scheduler's work queue (`Automatic.modules_entries`): one entry per
 * planned invocation, named by its `AutomaticModules` member. All entries of a
 * module share that module's configuration, so an entry is modelled by its
 * name alone and the shared configuration lives in the scheduler's maps.
 */
module WorkQueue {

  /** `AutomaticModules`, plus any other name a caller may list (`Other`). */
  datatype ModuleName =
    | Swaps | WrapUnwrapEth | SendEmail | MintL2pass | MintBridgeL2Telegraph
    | L2TelegraphSendMessage | CreateGnosisSafe | CreateOmniseaCollection | Aave | Layerbank
    | MintNfts2me | MintZerius | MintZkstars | RubyscoreVote | DeployContract
    | BridgeIn | BridgeOut | Other(name: string)

  /** The keys of `modules_mapping`: the names the scheduling loop can dispatch. */
  predicate Supported(n: ModuleName)
  {
    !(n.BridgeIn? || n.BridgeOut? || n.Other?)
  }

  /** The modules whose one logical operation is two invocations (deposit then withdraw, wrap then unwrap). */
  predicate TwoPhase(n: ModuleName)
  {
    n.WrapUnwrapEth? || n.Aave? || n.Layerbank?
  }

  /** The single-shot modules: one invocation per entry. */
  predicate SingleShot(n: ModuleName)
  {
    Supported(n) && !TwoPhase(n) && n != Swaps
  }

  /** How many entries of the queue are named `n`. */
  function Count<T(==)>(s: seq<T>, n: T): nat
  {
    if s == [] then 0 else (if s[0] == n then 1 else 0) + Count(s[1..], n)
  }

  function Min(a: nat, b: nat): nat
  {
    if a <= b then a else b
  }

  function Max0(q: int): nat
  {
    if q < 0 then 0 else q
  }

  /** `quantity` copies of one entry (`for _ in range(quantity): append(entry)`). */
  function Repeat<T(!new)>(n: T, quantity: int): (r: seq<T>)
    ensures |r| == Max0(quantity) && Count(r, n) == Max0(quantity)
    ensures forall m :: m != n ==> Count(r, m) == 0
    decreases Max0(quantity)
  {
    if quantity <= 0 then []
    else
      var rest := Repeat(n, quantity - 1);
      assert ([n] + rest)[1..] == rest;
      [n] + rest
  }

  /** Counting over a queue with one more entry in front. */
  lemma CountCons<T>(x: T, t: seq<T>, m: T)
    ensures Count([x] + t, m) == (if x == m then 1 else 0) + Count(t, m)
  {
    assert ([x] + t)[1..] == t;
  }

  /**
   * `_remove_module_entries(n, q, all)`: the queue with the first `q` entries
   * named `n` dropped (every entry named `n` when `all`). `q` is the budget of
   * removals still to make.
   */
  function Remove<T(==)>(s: seq<T>, n: T, q: nat, all: bool): seq<T>
    decreases |s|
  {
    if s == [] then []
    else if s[0] != n then [s[0]] + Remove(s[1..], n, q, all)
    else if all || q > 0 then Remove(s[1..], n, if q > 0 then q - 1 else 0, all)
    else [s[0]] + Remove(s[1..], n, q, all)
  }

  /** The queue with every entry named `n` struck out, the others in order. */
  function Without<T(==)>(s: seq<T>, n: T): (r: seq<T>)
    ensures Count(r, n) == 0
  {
    if s == [] then []
    else if s[0] == n then Without(s[1..], n)
    else [s[0]] + Without(s[1..], n)
  }

  /** Exactly min(q, count) entries named `n` go (all of them with `all`); no other name loses an entry. */
  lemma RemoveCounts<T>(s: seq<T>, n: T, q: nat, all: bool)
    ensures Count(Remove(s, n, q, all), n) == if all then 0 else Count(s, n) - Min(q, Count(s, n))
    ensures forall m :: m != n ==> Count(Remove(s, n, q, all), m) == Count(s, m)
  {
    RemoveCountsNamed(s, n, q, all);
    forall m | m != n
      ensures Count(Remove(s, n, q, all), m) == Count(s, m)
    {
      RemoveCountsOther(s, n, q, all, m);
    }
  }

  lemma {:induction false} RemoveCountsNamed<T>(s: seq<T>, n: T, q: nat, all: bool)
    ensures Count(Remove(s, n, q, all), n) == if all then 0 else Count(s, n) - Min(q, Count(s, n))
    decreases |s|
  {
    if s != [] {
      var t := s[1..];
      if s[0] != n {
        assert Remove(s, n, q, all) == [s[0]] + Remove(t, n, q, all);
        RemoveCountsNamed(t, n, q, all);
        CountCons(s[0], Remove(t, n, q, all), n);
      } else if all || q > 0 {
        assert Remove(s, n, q, all) == Remove(t, n, if q > 0 then q - 1 else 0, all);
        RemoveCountsNamed(t, n, if q > 0 then q - 1 else 0, all);
      } else {
        assert Remove(s, n, q, all) == [s[0]] + Remove(t, n, q, all);
        RemoveCountsNamed(t, n, q, all);
        CountCons(s[0], Remove(t, n, q, all), n);
      }
    }
  }

  lemma {:induction false} RemoveCountsOther<T>(s: seq<T>, n: T, q: nat, all: bool, m: T)
    requires m != n
    ensures Count(Remove(s, n, q, all), m) == Count(s, m)
    decreases |s|
  {
    if s != [] {
      var t := s[1..];
      if s[0] != n {
        assert Remove(s, n, q, all) == [s[0]] + Remove(t, n, q, all);
        RemoveCountsOther(t, n, q, all, m);
        CountCons(s[0], Remove(t, n, q, all), m);
      } else if all || q > 0 {
        assert Remove(s, n, q, all) == Remove(t, n, if q > 0 then q - 1 else 0, all);
        RemoveCountsOther(t, n, if q > 0 then q - 1 else 0, all, m);
      } else {
        assert Remove(s, n, q, all) == [s[0]] + Remove(t, n, q, all);
        RemoveCountsOther(t, n, q, all, m);
        CountCons(s[0], Remove(t, n, q, all), m);
      }
    }
  }

  /** The entries of every other module keep their relative order. */
  lemma {:induction false} RemoveKeepsOthers<T>(s: seq<T>, n: T, q: nat, all: bool)
    ensures Without(Remove(s, n, q, all), n) == Without(s, n)
    decreases |s|
  {
    if s != [] {
      if s[0] != n {
        RemoveKeepsOthers(s[1..], n, q, all);
        assert ([s[0]] + Remove(s[1..], n, q, all))[1..] == Remove(s[1..], n, q, all);
      } else if all || q > 0 {
        RemoveKeepsOthers(s[1..], n, if q > 0 then q - 1 else 0, all);
      } else {
        RemoveKeepsOthers(s[1..], n, q, all);
        assert ([s[0]] + Remove(s[1..], n, q, all))[1..] == Remove(s[1..], n, q, all);
      }
    }
  }

  /**
   * The dropped entries are the earliest ones: up to some cut `k` every entry
   * named `n` is gone (there are min(q, count) of them), and from `k` on
   * nothing is touched.
   */
  lemma {:induction false} RemoveTakesEarliest<T>(s: seq<T>, n: T, q: nat) returns (k: nat)
    ensures k <= |s| && Count(s[..k], n) == Min(q, Count(s, n))
    ensures Remove(s, n, q, false) == Without(s[..k], n) + s[k..]
    decreases |s|
  {
    if s == [] || q == 0 {
      k := 0;
      RemoveNothing(s, n);
      assert s[..0] == [];
    } else {
      var t := s[1..];
      var q' := if s[0] == n then q - 1 else q;
      var k' := RemoveTakesEarliest(t, n, q');
      k := k' + 1;
      assert s == [s[0]] + t;
      assert s[..k] == [s[0]] + t[..k'];
      assert s[k..] == t[k'..];
      CountCons(s[0], t, n);
      CountCons(s[0], t[..k'], n);
      WithoutCons(s[0], t[..k'], n);
    }
  }

  lemma WithoutCons<T>(x: T, t: seq<T>, n: T)
    ensures Without([x] + t, n) == if x == n then Without(t, n) else [x] + Without(t, n)
  {
    assert ([x] + t)[1..] == t;
  }

  /** With no budget and no `all`, nothing is removed. */
  lemma {:induction false} RemoveNothing<T>(s: seq<T>, n: T)
    ensures Remove(s, n, 0, false) == s
    decreases |s|
  {
    if s != [] {
      RemoveNothing(s[1..], n);
    }
  }

  /** Counting distributes over concatenation. */
  lemma {:induction false} CountAppend<T>(a: seq<T>, b: seq<T>, m: T)
    ensures Count(a + b, m) == Count(a, m) + Count(b, m)
    decreases |a|
  {
    if a != [] {
      CountAppend(a[1..], b, m);
      assert (a + b)[0] == a[0] && (a + b)[1..] == a[1..] + b;
    } else {
      assert a + b == b;
    }
  }

  /** A name has entries exactly when it occurs in the queue. */
  lemma {:induction false} CountMembership<T>(s: seq<T>, m: T)
    ensures m in s <==> Count(s, m) > 0
    decreases |s|
  {
    if s != [] {
      CountMembership(s[1..], m);
      assert s == [s[0]] + s[1..];
    }
  }

  /** The queue shrinks by exactly the number of entries dropped. */
  lemma {:induction false} RemoveLength<T>(s: seq<T>, n: T, q: nat, all: bool)
    ensures |Remove(s, n, q, all)| == |s| - (if all then Count(s, n) else Min(q, Count(s, n)))
    decreases |s|
  {
    if s != [] {
      var q' := if s[0] == n && q > 0 then q - 1 else q;
      RemoveLength(s[1..], n, q', all);
    }
  }
}
