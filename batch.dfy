/**
 * Batch execution (main.py): the wallet list is cut into contiguous groups,
 * one per thread; every group runs its accounts one after the other, and an
 * account's id is its 1-based position in the (possibly shuffled) list.
 */
module Batch {
  import opened Wrappers

  /** `_generate_groups` divides by a thread count clamped to zero when there are no wallets. */
  datatype BatchError = ZeroDivision

  /** The thread count after the clamp: at least 1, at most the number of wallets. */
  function ClampThreads(threads: int, n: nat): (t: nat)
    ensures threads <= 0 ==> t == 1
    ensures threads > 0 ==> t == if threads > n then n else threads
    ensures n > 0 ==> 1 <= t <= n
  {
    if threads <= 0 then 1 else if threads > n then n else threads
  }

  /** The size of group `i` of `n` wallets over `t` threads: the remainder goes to the first groups. */
  function GroupSize(n: nat, t: nat, i: nat): nat
    requires t > 0
  {
    n / t + (if i < n % t then 1 else 0)
  }

  function Flatten<A>(groups: seq<seq<A>>): seq<A>
  {
    if groups == [] then [] else groups[0] + Flatten(groups[1..])
  }

  lemma {:induction false} FlattenAppend<A>(groups: seq<seq<A>>, g: seq<A>)
    ensures Flatten(groups + [g]) == Flatten(groups) + g
    decreases |groups|
  {
    if groups != [] {
      assert (groups + [g])[1..] == groups[1..] + [g];
      FlattenAppend(groups[1..], g);
    }
  }

  lemma {:induction false} FlattenSplit<A>(groups: seq<seq<A>>, i: nat)
    requires i <= |groups|
    ensures Flatten(groups) == Flatten(groups[..i]) + Flatten(groups[i..])
    decreases |groups|
  {
    if i > 0 {
      FlattenSplit(groups[1..], i - 1);
      assert groups[..i] == [groups[0]] + groups[1..][..i - 1];
      assert groups[1..][i - 1..] == groups[i..];
      assert Flatten(groups[..i]) == groups[0] + Flatten(groups[1..][..i - 1]);
    } else {
      assert groups[..0] == [] && groups[0..] == groups;
    }
  }

  /** Where group `i` starts: `i` full shares plus the extra wallets handed to the groups before it. */
  function Offset(q: nat, rem: nat, i: nat): nat
  {
    i * q + (if i < rem then i else rem)
  }

  lemma OffsetStep(n: nat, t: nat, i: nat)
    requires 0 < t && i < t
    ensures Offset(n / t, n % t, i) + GroupSize(n, t, i) == Offset(n / t, n % t, i + 1)
    ensures Offset(n / t, n % t, i + 1) <= n
  {
    var q, rem := n / t, n % t;
    assert n == t * q + rem;
    assert (i + 1) * q == i * q + q;
    MulLeq(i + 1, t, q);
  }

  lemma MulLeq(a: nat, b: nat, q: nat)
    requires a <= b
    ensures a * q <= b * q
  {
    var d: nat := b - a;
    assert b * q == a * q + d * q;
  }

  lemma OffsetEnd(n: nat, t: nat)
    requires 0 < t
    ensures Offset(n / t, n % t, t) == n
  {
    assert n == t * (n / t) + n % t;
  }

  lemma EachGroupNonEmpty(n: nat, t: nat, i: nat)
    requires 0 < t <= n
    ensures GroupSize(n, t, i) >= 1
  {
  }

  /**
   * `_generate_groups` on the (already shuffled) wallet list: as many groups as
   * the clamped thread count, sizes differing by at most one with the larger
   * ones first, and their concatenation is the list itself.
   */
  method GenerateGroups<A>(data: seq<A>, threads: int) returns (r: Result<seq<seq<A>>, BatchError>)
    ensures r.Failure? <==> |data| == 0 && threads > 0
    ensures r.Success? ==>
              var t := ClampThreads(threads, |data|);
              |r.value| == t && Flatten(r.value) == data
              && (forall i :: 0 <= i < t ==> |r.value[i]| == GroupSize(|data|, t, i))
              && (|data| > 0 ==> forall i :: 0 <= i < t ==> |r.value[i]| >= 1)
  {
    var n := |data|;
    var t: int := threads;
    if t <= 0 {
      t := 1;
    } else if t > n {
      t := n;
    }
    if t == 0 {
      return Failure(ZeroDivision);
    }
    var groupSize := n / t;
    var remainder := n % t;
    var groups: seq<seq<A>> := [];
    var start := 0;
    for i := 0 to t
      invariant |groups| == i
      invariant start == Offset(groupSize, remainder, i) && start <= n
      invariant Flatten(groups) == data[..start]
      invariant forall k :: 0 <= k < i ==> |groups[k]| == GroupSize(n, t, k)
    {
      var end := start + groupSize + (if i < remainder then 1 else 0);
      OffsetStep(n, t, i);
      FlattenAppend(groups, data[start..end]);
      assert data[..start] + data[start..end] == data[..end];
      groups := groups + [data[start..end]];
      start := end;
    }
    OffsetEnd(n, t);
    assert data[..start] == data;
    if n > 0 {
      forall i | 0 <= i < t ensures |groups[i]| >= 1 {
        EachGroupNonEmpty(n, t, i);
      }
    }
    return Success(groups);
  }

  /** The id-bearing start offset of group `i`: the number of wallets in the groups before it. */
  function StartId<A>(groups: seq<seq<A>>, i: nat): nat
    requires i <= |groups|
  {
    |Flatten(groups[..i])|
  }

  /** `main`'s loop: each group is launched with the running total of the sizes before it. */
  method LaunchGroups<A>(groups: seq<seq<A>>) returns (startIds: seq<nat>)
    ensures |startIds| == |groups|
    ensures forall i :: 0 <= i < |groups| ==> startIds[i] == StartId(groups, i)
  {
    var startId := 0;
    startIds := [];
    for i := 0 to |groups|
      invariant |startIds| == i
      invariant startId == StartId(groups, i)
      invariant forall k :: 0 <= k < i ==> startIds[k] == StartId(groups, k)
    {
      startIds := startIds + [startId];
      FlattenAppend(groups[..i], groups[i]);
      assert groups[..i + 1] == groups[..i] + [groups[i]];
      startId := startId + |groups[i]|;
    }
  }

  /** Account `j` of group `i` gets id `StartId + j + 1`, which is its 1-based position in the list. */
  lemma AccountIdIsPosition<A>(groups: seq<seq<A>>, i: nat, j: nat)
    requires i < |groups| && j < |groups[i]|
    ensures StartId(groups, i) + j < |Flatten(groups)|
    ensures Flatten(groups)[StartId(groups, i) + j] == groups[i][j]
  {
    FlattenSplit(groups, i);
    assert groups[i..] == [groups[i]] + groups[i + 1..];
    assert Flatten(groups[i..]) == groups[i] + Flatten(groups[i + 1..]);
  }

  lemma {:induction false} StartIdMonotone<A>(groups: seq<seq<A>>, i: nat, k: nat)
    requires i <= k <= |groups|
    ensures StartId(groups, i) <= StartId(groups, k)
    ensures i < k ==> StartId(groups, i) + |groups[i]| <= StartId(groups, k)
  {
    var gk := groups[..k];
    FlattenSplit(gk, i);
    assert gk[..i] == groups[..i];
    if i < k {
      assert gk[i..] == [groups[i]] + gk[i + 1..];
      assert Flatten(gk[i..]) == groups[i] + Flatten(gk[i + 1..]);
    }
  }

  /** No two accounts of the batch share an id. */
  lemma AccountIdsDistinct<A>(groups: seq<seq<A>>, i: nat, j: nat, i': nat, j': nat)
    requires i < |groups| && j < |groups[i]| && i' < |groups| && j' < |groups[i']|
    requires (i, j) != (i', j')
    ensures StartId(groups, i) + j != StartId(groups, i') + j'
  {
    if i < i' {
      StartIdMonotone(groups, i, i');
    } else if i' < i {
      StartIdMonotone(groups, i', i);
    }
  }

  /** The account holding position `p` of the flattened list: its group and its place in that group. */
  lemma {:induction false} AccountOfPosition<A>(groups: seq<seq<A>>, p: nat) returns (i: nat, j: nat)
    requires p < |Flatten(groups)|
    ensures i < |groups| && j < |groups[i]|
    ensures StartId(groups, i) + j == p
    decreases |groups|
  {
    assert groups != [];
    var m := |groups| - 1;
    var init := groups[..m];
    assert groups == init + [groups[m]];
    FlattenAppend(init, groups[m]);
    if p < |Flatten(init)| {
      i, j := AccountOfPosition(init, p);
      assert init[..i] == groups[..i];
    } else {
      i, j := m, p - |Flatten(init)|;
    }
  }

  /** Position `p` of the list (id `p + 1`) belongs to an account of some group, and that account is the wallet there. */
  ghost predicate PositionHeld<A>(groups: seq<seq<A>>, p: nat)
    requires p < |Flatten(groups)|
  {
    exists i, j :: 0 <= i < |groups| && 0 <= j < |groups[i]|
      && StartId(groups, i) + j == p && groups[i][j] == Flatten(groups)[p]
  }

  /** Every id from 1 to the number of accounts is given to some account of the batch. */
  lemma AccountIdsCover<A>(groups: seq<seq<A>>)
    ensures forall p: nat :: p < |Flatten(groups)| ==> PositionHeld(groups, p)
  {
    forall p: nat | p < |Flatten(groups)|
      ensures PositionHeld(groups, p)
    {
      var i, j := AccountOfPosition(groups, p);
      AccountIdIsPosition(groups, i, j);
    }
  }

  /**
   * With no empty group (as `GenerateGroups` yields for a non-empty list), only
   * the first group starts at 0, so its accounts alone start without a sleep.
   */
  lemma OnlyFirstGroupStartsAtZero<A>(groups: seq<seq<A>>, i: nat)
    requires forall k :: 0 <= k < |groups| ==> |groups[k]| >= 1
    requires i < |groups|
    ensures StartId(groups, i) == 0 <==> i == 0
  {
    if i > 0 {
      StartIdMonotone(groups, 0, i);
    }
  }

  /** What `run_group` does for one account: the id it logs under, whether it slept first, whether an error was logged. */
  datatype AccountRun<A> = AccountRun(accountId: nat, account: A, sleptBefore: bool, errorLogged: bool)

  /**
   * `run_group`: every account of the group is attempted in order, an error
   * of one account is logged and does not stop the next, and the accounts of
   * every group but the first sleep before they start. `raises[i]` is whether
   * the module raised for account `i`.
   */
  method RunGroup<A>(group: seq<A>, startId: nat, raises: seq<bool>) returns (trace: seq<AccountRun<A>>)
    requires |raises| == |group|
    ensures |trace| == |group|
    ensures forall i :: 0 <= i < |group| ==>
              trace[i] == AccountRun(startId + i + 1, group[i], startId != 0, raises[i])
  {
    trace := [];
    for i := 0 to |group|
      invariant |trace| == i
      invariant forall k :: 0 <= k < i ==> trace[k] == AccountRun(startId + k + 1, group[k], startId != 0, raises[k])
    {
      trace := trace + [AccountRun(startId + i + 1, group[i], startId != 0, raises[i])];
    }
  }

  /** Ten wallets over three threads: groups of 4, 3 and 3 wallets starting at ids 1, 5 and 8. */
  method TenWalletsThreeThreads() returns (sizes: seq<nat>, startIds: seq<nat>)
    ensures sizes == [4, 3, 3] && startIds == [0, 4, 7]
  {
    var data := [1, 2, 3, 4, 5, 6, 7, 8, 9, 10];
    var r := GenerateGroups(data, 3);
    assert ClampThreads(3, 10) == 3;
    var groups := r.value;
    assert |groups[0]| == 4 && |groups[1]| == 3 && |groups[2]| == 3;
    sizes := [|groups[0]|, |groups[1]|, |groups[2]|];
    startIds := LaunchGroups(groups);
    assert groups[..0] == [];
    assert groups[..1] == [groups[0]] && Flatten(groups[..1]) == groups[0] + Flatten(groups[..1][1..]);
    assert groups[..2] == [groups[0], groups[1]];
    assert Flatten(groups[..2]) == groups[0] + Flatten(groups[..2][1..]);
    assert groups[..2][1..] == [groups[1]];
    assert Flatten(groups[..2][1..]) == groups[1] + Flatten(groups[..2][1..][1..]);
  }
}
