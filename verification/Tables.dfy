/** The cached tables of per-session buffer addresses that batched kernels take their inputs and
    outputs from. */
module Tables {
  import opened Basics
  import opened Scratch

  function Slot(r: nat, i: nat, nb: nat): (k: nat)
    requires r < TAB_ROLES && i < nb
    ensures k < TAB_ROLES * nb
  {
    assert r * nb + i < (r + 1) * nb <= TAB_ROLES * nb;
    r * nb + i
  }

  /** Row r, column i of the table for the sessions with these base addresses. */
  ghost predicate Describes(t: seq<int>, bases: seq<int>) {
    && TAB_ROLES * |bases| <= |t|
    && forall r: nat, i: nat :: r < TAB_ROLES && i < |bases| ==> t[Slot(r, i, |bases|)] == At(bases[i], Offset(r))
  }

  class PointerTable {
    var pin: array<int>
    var dev: array<int>
    var cap: nat
    var nb: nat
    /** The sessions the uploaded table describes. */
    ghost var bases: seq<int>

    ghost predicate Valid()
      reads this, pin, dev
    {
      && pin != dev && pin.Length == dev.Length == TAB_ROLES * cap
      && nb == |bases| && Describes(pin[..], bases) && Describes(dev[..], bases)
    }

    constructor ()
      ensures Valid() && fresh(pin) && fresh(dev)
    {
      pin, dev := new int[0], new int[0];
      cap, nb := 0, 0;
      bases := [];
    }

    /** btab_ensure: reallocate for more sessions, dropping the cached roster. */
    method Ensure(n: nat)
      requires Valid() && n > 0
      modifies this
      ensures Valid() && cap >= n
      ensures (pin == old(pin) && dev == old(dev) && nb == old(nb) && bases == old(bases))
        || (fresh(pin) && fresh(dev) && nb == 0)
      ensures pin == old(pin) ==> pin[..] == old(pin[..])
    {
      if cap >= n {
        return;
      }
      pin, dev := new int[TAB_ROLES * n], new int[TAB_ROLES * n];
      cap, nb := n, 0;
      bases := [];
    }

    /** The table for this roster is on the device afterwards, rebuilt or reused: the count and
        the bx row decide, and every other row is a fixed offset from bx. */
    method Ready(bx: seq<int>)
      requires Valid() && |bx| > 0
      modifies this, pin, dev
      ensures Valid() && nb == |bx| && Describes(dev[..], bx)
      ensures pin == old(pin) || fresh(pin)
      ensures dev == old(dev) || fresh(dev)
    {
      var n := |bx|;
      Ensure(n);
      var same := nb == n;
      var i := 0;
      while same && i < n
        invariant i <= n
        invariant same ==> nb == n && forall j: nat :: j < i ==> bases[j] == bx[j]
      {
        assert pin[..][Slot(0, i, n)] == pin[i];
        if pin[i] != bx[i] {
          same := false;
        }
        i := i + 1;
      }
      if same {
        assert bases == bx;
        return;
      }
      FillTable(pin, bx);
      Upload(pin, dev);
      nb := n;
      bases := bx;
    }
  }

  method FillTable(pin: array<int>, bx: seq<int>)
    requires TAB_ROLES * |bx| <= pin.Length
    modifies pin
    ensures Describes(pin[..], bx)
  {
    for i := 0 to |bx|
      invariant forall r: nat, j: nat :: r < TAB_ROLES && j < i ==> pin[Slot(r, j, |bx|)] == At(bx[j], Offset(r))
    {
      FillSession(pin, bx, i);
    }
  }

  method FillSession(pin: array<int>, bx: seq<int>, i: nat)
    requires i < |bx| && TAB_ROLES * |bx| <= pin.Length
    requires forall r: nat, j: nat :: r < TAB_ROLES && j < i ==> pin[Slot(r, j, |bx|)] == At(bx[j], Offset(r))
    modifies pin
    ensures forall r: nat, j: nat :: r < TAB_ROLES && j <= i ==> pin[Slot(r, j, |bx|)] == At(bx[j], Offset(r))
  {
    for r := 0 to TAB_ROLES
      invariant forall u: nat, j: nat :: u < TAB_ROLES && j <= i && (j < i || u < r) ==>
        pin[Slot(u, j, |bx|)] == At(bx[j], Offset(u))
    {
      SlotApart(r, i, |bx|);
      pin[Slot(r, i, |bx|)] := bx[i] + Offset(r);
    }
  }

  lemma SlotApart(r: nat, i: nat, nb: nat)
    requires r < TAB_ROLES && i < nb
    ensures forall u: nat, j: nat :: u < TAB_ROLES && j < nb && (u != r || j != i) ==> Slot(u, j, nb) != Slot(r, i, nb)
  {
    forall u: nat, j: nat | u < TAB_ROLES && j < nb && (u != r || j != i)
      ensures Slot(u, j, nb) != Slot(r, i, nb)
    {
      if u < r {
        RowGap(u, r, nb);
      } else if r < u {
        RowGap(r, u, nb);
      }
    }
  }

  method Upload(pin: array<int>, dev: array<int>)
    requires pin != dev && pin.Length == dev.Length
    modifies dev
    ensures dev[..] == pin[..]
  {
    for k := 0 to pin.Length
      invariant dev[..k] == pin[..k]
    {
      dev[k] := pin[k];
    }
  }
}
