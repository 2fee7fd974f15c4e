/**
 * The infinity guard `shoot_infs` (main_uota.py:415-431): every infinite entry
 * of a 1-D or 2-D tensor is first set to zero, the maximum of the resulting
 * tensor is taken, and that maximum is written back into the positions that
 * were infinite. A tensor without infinities is returned unchanged.
 */
module InfinityGuard {
  import opened Grids

  /** A tensor entry: a finite value, or one of the two infinities `torch.isinf` detects. */
  datatype Entry = Fin(value: real) | PosInf | NegInf

  predicate IsInf(e: Entry)
  {
    !e.Fin?
  }

  /** The entry after the guard's first pass: infinities read as zero. */
  function Zeroed(e: Entry): real
  {
    if e.Fin? then e.value else 0.0
  }

  function Max(a: real, b: real): real
  {
    if a >= b then a else b
  }

  // ---------------------------------------------------------------- 1-D

  predicate HasInf(s: seq<Entry>)
  {
    exists i :: 0 <= i < |s| && IsInf(s[i])
  }

  predicate AllFinite(s: seq<Entry>)
  {
    forall i :: 0 <= i < |s| ==> s[i].Fin?
  }

  /** The real values of a tensor whose infinities have been zeroed. */
  function Reals(s: seq<Entry>): seq<real>
  {
    seq(|s|, i requires 0 <= i < |s| => Zeroed(s[i]))
  }

  /** `torch.max` of a non-empty 1-D tensor: an element that bounds all others. */
  function Peak(s: seq<real>): (m: real)
    requires |s| > 0
    ensures forall i :: 0 <= i < |s| ==> s[i] <= m
    ensures exists i :: 0 <= i < |s| && s[i] == m
  {
    if |s| == 1 then s[0] else Max(Peak(s[..|s| - 1]), s[|s| - 1])
  }

  /** `torch.nonzero(torch.isinf(s))`: the positions of the infinite entries. */
  function InfIndices(s: seq<Entry>): (r: seq<nat>)
    ensures forall k :: k in r <==> 0 <= k < |s| && IsInf(s[k])
  {
    if |s| == 0 then []
    else InfIndices(s[..|s| - 1]) + (if IsInf(s[|s| - 1]) then [|s| - 1] else [])
  }

  /** The positions come out strictly increasing, as `torch.nonzero` lists them. */
  lemma {:induction false} InfIndicesIncreasing(s: seq<Entry>)
    ensures forall a, b :: 0 <= a < b < |InfIndices(s)| ==> InfIndices(s)[a] < InfIndices(s)[b]
  {
    if |s| > 0 {
      var before := InfIndices(s[..|s| - 1]);
      InfIndicesIncreasing(s[..|s| - 1]);
      var r := InfIndices(s);
      forall a, b | 0 <= a < b < |r|
        ensures r[a] < r[b]
      {
        assert r[a] == before[a];
        if b == |before| {
          assert before[a] in before;
        } else {
          assert r[b] == before[b];
        }
      }
    }
  }

  /** `s` with every infinite entry replaced by `v`. */
  function Fill(s: seq<Entry>, v: real): seq<Entry>
  {
    seq(|s|, i requires 0 <= i < |s| => if IsInf(s[i]) then Fin(v) else s[i])
  }

  /** What `shoot_infs` returns for a 1-D tensor. */
  function Shoot(s: seq<Entry>): seq<Entry>
  {
    if HasInf(s) then Fill(s, Peak(Reals(s))) else s
  }

  /**
   * `v` is the largest of zero and the finite entries of `s`: it is at least
   * zero, bounds every finite entry, and is zero or one of them.
   */
  predicate IsCeiling(s: seq<Entry>, v: real)
  {
    && v >= 0.0
    && (forall i :: 0 <= i < |s| && s[i].Fin? ==> s[i].value <= v)
    && (v == 0.0 || exists i :: 0 <= i < |s| && s[i].Fin? && s[i].value == v)
  }

  /** The guard's contract: nothing infinite remains, finite entries keep their values,
      every former infinity holds max(0, largest finite entry). */
  lemma ShootSpec(s: seq<Entry>)
    ensures |Shoot(s)| == |s| && AllFinite(Shoot(s))
    ensures !HasInf(s) ==> Shoot(s) == s
    ensures forall i :: 0 <= i < |s| && s[i].Fin? ==> Shoot(s)[i] == s[i]
    ensures forall i :: 0 <= i < |s| && IsInf(s[i]) ==> IsCeiling(s, Shoot(s)[i].value)
  {
    if HasInf(s) {
      var m := Peak(Reals(s));
      var j :| 0 <= j < |s| && IsInf(s[j]);
      assert Reals(s)[j] == 0.0;
      var w :| 0 <= w < |s| && Reals(s)[w] == m;
      if m != 0.0 {
        assert s[w].Fin? && s[w].value == m;
      }
      forall i | 0 <= i < |s| && s[i].Fin?
        ensures s[i].value <= m
      {
        assert Reals(s)[i] == s[i].value;
      }
    }
  }

  /** A tensor whose entries are all infinite becomes all zero. */
  lemma ShootAllInfinite(s: seq<Entry>)
    requires |s| > 0 && forall i :: 0 <= i < |s| ==> IsInf(s[i])
    ensures Shoot(s) == seq(|s|, i => Fin(0.0))
  {
    ShootSpec(s);
    forall i | 0 <= i < |s|
      ensures Shoot(s)[i] == Fin(0.0)
    {
      assert IsCeiling(s, Shoot(s)[i].value);
    }
  }

  /** Guarding twice is guarding once. */
  lemma ShootIdempotent(s: seq<Entry>)
    ensures Shoot(Shoot(s)) == Shoot(s)
  {
    ShootSpec(s);
    ShootSpec(Shoot(s));
  }

  /** One of the source's two loops over the infinite positions: `inp_tensor[ind[0]] = v` for each. */
  method WriteEntries(a: array<Entry>, ind: seq<nat>, v: real)
    requires forall t :: 0 <= t < |ind| ==> ind[t] < a.Length
    modifies a
    ensures forall k :: 0 <= k < a.Length ==> a[k] == if k in ind then Fin(v) else old(a[k])
  {
    for t := 0 to |ind|
      invariant forall k :: 0 <= k < a.Length ==> a[k] == if k in ind[..t] then Fin(v) else old(a[k])
    {
      a[ind[t]] := Fin(v);
      assert ind[..t + 1] == ind[..t] + [ind[t]];
    }
    assert ind[..|ind|] == ind;
  }

  /** `shoot_infs` on a 1-D tensor, updating it in place as the source does. */
  method ShootInfs(a: array<Entry>)
    modifies a
    ensures a[..] == Shoot(old(a[..]))
  {
    ghost var s := a[..];
    var ind := InfIndices(a[..]);
    if |ind| > 0 {
      assert forall t :: 0 <= t < |ind| ==> ind[t] in ind;
      WriteEntries(a, ind, 0.0);
      assert Reals(a[..]) == Reals(s);
      var m := Peak(Reals(a[..]));
      WriteEntries(a, ind, m);
      assert ind[0] in ind;
      assert a[..] == Fill(s, m);
    } else {
      assert !HasInf(s);
    }
  }

  // ---------------------------------------------------------------- 2-D

  predicate HasInf2(m: seq<seq<Entry>>)
  {
    exists i, j :: 0 <= i < |m| && 0 <= j < |m[i]| && IsInf(m[i][j])
  }

  function Reals2(m: seq<seq<Entry>>): seq<seq<real>>
  {
    seq(|m|, i requires 0 <= i < |m| => Reals(m[i]))
  }

  /** `torch.max` of a 2-D tensor with non-empty rows. */
  function Peak2(m: seq<seq<real>>): (v: real)
    requires |m| > 0 && forall i :: 0 <= i < |m| ==> |m[i]| > 0
    ensures forall i, j :: 0 <= i < |m| && 0 <= j < |m[i]| ==> m[i][j] <= v
    ensures exists i, j :: 0 <= i < |m| && 0 <= j < |m[i]| && m[i][j] == v
  {
    if |m| == 1 then Peak(m[0]) else Max(Peak2(m[..|m| - 1]), Peak(m[|m| - 1]))
  }

  /** The pairs `(i, js[t])`, in the order of `js`. */
  function Tagged(i: nat, js: seq<nat>): (r: seq<(nat, nat)>)
    ensures forall x, y :: (x, y) in r <==> x == i && y in js
  {
    var r := seq(|js|, t requires 0 <= t < |js| => (i, js[t]));
    assert forall t :: 0 <= t < |js| ==> r[t] == (i, js[t]);
    r
  }

  /** `torch.nonzero(torch.isinf(m))` for a 2-D tensor: the infinite cells in row-major order. */
  function InfCells(m: seq<seq<Entry>>): (r: seq<(nat, nat)>)
    ensures forall x, y :: (x, y) in r <==> 0 <= x < |m| && 0 <= y < |m[x]| && IsInf(m[x][y])
  {
    if |m| == 0 then []
    else InfCells(m[..|m| - 1]) + Tagged(|m| - 1, InfIndices(m[|m| - 1]))
  }

  function Fill2(m: seq<seq<Entry>>, v: real): seq<seq<Entry>>
  {
    seq(|m|, i requires 0 <= i < |m| => Fill(m[i], v))
  }

  /** What `shoot_infs` returns for a rectangular 2-D tensor. */
  function Shoot2(m: seq<seq<Entry>>, rows: nat, cols: nat): seq<seq<Entry>>
    requires Shaped(m, rows, cols)
  {
    if HasInf2(m) then Fill2(m, Peak2(Reals2(m))) else m
  }

  /** `v` is the largest of zero and the finite entries of `m`. */
  predicate IsCeiling2(m: seq<seq<Entry>>, v: real)
  {
    && v >= 0.0
    && (forall i, j :: 0 <= i < |m| && 0 <= j < |m[i]| && m[i][j].Fin? ==> m[i][j].value <= v)
    && (v == 0.0 || exists i, j :: 0 <= i < |m| && 0 <= j < |m[i]| && m[i][j].Fin? && m[i][j].value == v)
  }

  /** The 2-D guard's contract, as for `ShootSpec`. */
  lemma Shoot2Spec(m: seq<seq<Entry>>, rows: nat, cols: nat)
    requires Shaped(m, rows, cols)
    ensures Shaped(Shoot2(m, rows, cols), rows, cols)
    ensures !HasInf2(m) ==> Shoot2(m, rows, cols) == m
    ensures forall i, j :: 0 <= i < rows && 0 <= j < cols ==> Shoot2(m, rows, cols)[i][j].Fin?
    ensures forall i, j :: 0 <= i < rows && 0 <= j < cols && m[i][j].Fin? ==>
      Shoot2(m, rows, cols)[i][j] == m[i][j]
    ensures forall i, j :: 0 <= i < rows && 0 <= j < cols && IsInf(m[i][j]) ==>
      IsCeiling2(m, Shoot2(m, rows, cols)[i][j].value)
  {
    if HasInf2(m) {
      var r := Reals2(m);
      var v := Peak2(r);
      var x, y :| 0 <= x < |m| && 0 <= y < |m[x]| && IsInf(m[x][y]);
      assert r[x][y] == 0.0;
      var wi, wj :| 0 <= wi < |r| && 0 <= wj < |r[wi]| && r[wi][wj] == v;
      if v != 0.0 {
        assert m[wi][wj].Fin? && m[wi][wj].value == v;
      }
      forall i, j | 0 <= i < |m| && 0 <= j < |m[i]| && m[i][j].Fin?
        ensures m[i][j].value <= v
      {
        assert r[i][j] == m[i][j].value;
      }
    }
  }

  /** One of the source's two loops over the infinite cells: `inp_tensor[ind[0], ind[1]] = v` for each. */
  method WriteCells(a: array2<Entry>, ind: seq<(nat, nat)>, v: real)
    requires forall t :: 0 <= t < |ind| ==> ind[t].0 < a.Length0 && ind[t].1 < a.Length1
    modifies a
    ensures forall x, y :: 0 <= x < a.Length0 && 0 <= y < a.Length1 ==>
      a[x, y] == if (x, y) in ind then Fin(v) else old(a[x, y])
  {
    for t := 0 to |ind|
      invariant forall x, y :: 0 <= x < a.Length0 && 0 <= y < a.Length1 ==>
        a[x, y] == if (x, y) in ind[..t] then Fin(v) else old(a[x, y])
    {
      a[ind[t].0, ind[t].1] := Fin(v);
      assert ind[..t + 1] == ind[..t] + [ind[t]];
    }
    assert ind[..|ind|] == ind;
  }

  /** `shoot_infs` on a 2-D tensor, updating it in place as the source does. */
  method ShootInfs2(a: array2<Entry>)
    modifies a
    ensures Cells(a) == Shoot2(old(Cells(a)), a.Length0, a.Length1)
  {
    ghost var s := Cells(a);
    var ind := InfCells(Cells(a));
    if |ind| > 0 {
      assert forall t :: 0 <= t < |ind| ==> ind[t] in ind;
      WriteCells(a, ind, 0.0);
      assert ind[0] in ind;
      assert a.Length1 > 0;
      CellsEqual(Reals2(Cells(a)), Reals2(s), a.Length0, a.Length1);
      var m := Peak2(Reals2(Cells(a)));
      WriteCells(a, ind, m);
      assert HasInf2(s);
      CellsEqual(Cells(a), Fill2(s, m), a.Length0, a.Length1);
    } else {
      assert !HasInf2(s);
    }
  }
}
