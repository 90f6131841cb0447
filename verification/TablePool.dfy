/** The pool that coefficient tables are written into (sync.Pool).  A slice that was cut short when it was
    put back is short when it comes out again, although its capacity is still there. */
module TablePool {
  import opened Galois
  import opened Wrappers

  // base[off..off + len]; its capacity reaches to the end of base.
  datatype Window = Window(base: array<byte>, off: nat, len: nat) {
    ghost predicate Inside() { off + len <= base.Length }

    function Cap(): int { base.Length - off }

    ghost function Bytes(): seq<byte>
      requires Inside()
      reads base
    {
      base[off..off + len]
    }
  }

  // The length and capacity of a pooled slice; its bytes are overwritten before they are read.
  datatype Held = Held(len: nat, cap: nat)

  /** What the pool holds, what it makes when it has nothing to give, and which held slice the n-th Get
      takes.  The collector may empty the pool at any time, so any Get may take none. */
  datatype Shelf = Shelf(size: nat, reuse: nat -> Option<nat>, gets: nat, held: seq<Held>) {
    predicate Reuses() { reuse(gets).Some? && reuse(gets).value < |held| }

    function Next(): Held { if Reuses() then held[reuse(gets).value] else Held(size, size) }

    function Taken(): Shelf {
      this.(gets := gets + 1, held := if Reuses() then held[..reuse(gets).value] + held[reuse(gets).value + 1..]
        else held)
    }

    function PutBack(h: Held): Shelf { this.(held := held + [h]) }

    ghost predicate Sound() { forall h :: h in held ==> h.len <= h.cap }
  }

  // A pool that always gives what came first, if it holds anything.
  function Eager(): nat -> Option<nat> { _ => Some(0) }

  class Pool {
    var shelf: Shelf

    constructor (size: nat, reuse: nat -> Option<nat>)
      ensures shelf == Shelf(size, reuse, 0, [])
    {
      shelf := Shelf(size, reuse, 0, []);
    }

    method Get() returns (w: Window)
      requires shelf.Sound()
      modifies this
      ensures shelf == old(shelf).Taken() && shelf.Sound()
      ensures fresh(w.base) && w.Inside() && w.off == 0 && Held(w.len, w.Cap()) == old(shelf).Next()
      ensures shelf.size == old(shelf.size) && shelf.reuse == old(shelf.reuse) && shelf.gets == old(shelf.gets) + 1
      ensures var k := old(shelf.reuse(shelf.gets));
        if k.Some? && k.value < old(|shelf.held|) then
          w.len == old(shelf).held[k.value].len && w.base.Length == old(shelf).held[k.value].cap &&
          shelf.held == old(shelf).held[..k.value] + old(shelf).held[k.value + 1..]
        else w.len == w.base.Length == shelf.size && shelf.held == old(shelf.held)
    {
      var h := shelf.Next();
      shelf := shelf.Taken();
      var base := new byte[h.cap];
      w := Window(base, 0, h.len);
    }

    method Put(w: Window)
      requires w.Inside() && shelf.Sound()
      modifies this
      ensures shelf == old(shelf).PutBack(Held(w.len, w.Cap())) && shelf.Sound()
      ensures shelf == old(shelf).(held := old(shelf.held) + [Held(w.len, w.base.Length - w.off)])
    {
      shelf := shelf.PutBack(Held(w.len, w.Cap()));
    }
  }
}
