/** The cache as it runs: stored buffers aged in place, hits copied into the caller's message. */
module CacheObject {
  import opened Prelude
  import opened Records
  import opened QueryMetadata
  import opened CacheTtls
  import opened Truncation
  import opened ResponseCache

  datatype Cell = Cell(key: QueryKey, response: array<byte>, agedAt: nat, ttl: nat)

  function CellIndex(cells: seq<Cell>, key: QueryKey): (r: Option<nat>)
    ensures r.Some? ==> r.value < |cells| && cells[r.value].key == key
  {
    if cells == [] then None
    else if cells[0].key == key then Some(0)
    else
      match CellIndex(cells[1..], key)
      case None => None
      case Some(i) => Some(i + 1)
  }

  ghost function SlotOf(c: Cell): Slot
    reads c.response
  {
    Slot(c.key, Entry(c.response[..], c.agedAt, c.ttl))
  }

  ghost function StoreOf(cells: seq<Cell>): Store
    reads set c | c in cells :: c.response
  {
    if cells == [] then [] else [SlotOf(cells[0])] + StoreOf(cells[1..])
  }

  lemma {:induction false} StoreAt(cells: seq<Cell>, i: nat)
    requires i < |cells|
    ensures |StoreOf(cells)| == |cells| && StoreOf(cells)[i] == SlotOf(cells[i])
    decreases |cells|
  {
    if i > 0 {
      StoreAt(cells[1..], i - 1);
    } else if |cells| > 1 {
      StoreAt(cells[1..], 0);
    }
  }

  lemma {:induction false} StoreConcat(a: seq<Cell>, b: seq<Cell>)
    ensures StoreOf(a + b) == StoreOf(a) + StoreOf(b)
    decreases |a|
  {
    if a == [] {
      assert a + b == b;
    } else {
      StoreConcat(a[1..], b);
      assert (a + b)[1..] == a[1..] + b;
      assert (a + b)[0] == a[0];
      assert StoreOf(a + b) == [SlotOf(a[0])] + (StoreOf(a[1..]) + StoreOf(b));
    }
  }

  lemma {:induction false} SameIndex(cells: seq<Cell>, key: QueryKey)
    ensures IndexOf(StoreOf(cells), key) == CellIndex(cells, key)
    decreases |cells|
  {
    if cells != [] {
      SameIndex(cells[1..], key);
      assert StoreOf(cells)[1..] == StoreOf(cells[1..]);
    }
  }

  lemma StoreSize(cells: seq<Cell>)
    ensures |StoreOf(cells)| == |cells|
  {
    if cells != [] {
      StoreSize(cells[1..]);
    }
  }

  lemma StorePrefix(cells: seq<Cell>, n: nat)
    requires n <= |cells|
    ensures |StoreOf(cells)| == |cells| && StoreOf(cells[..n]) == StoreOf(cells)[..n]
  {
    assert cells == cells[..n] + cells[n..];
    StoreConcat(cells[..n], cells[n..]);
    StoreSize(cells);
    StoreSize(cells[..n]);
  }

  lemma StoreSuffix(cells: seq<Cell>, n: nat)
    requires n <= |cells|
    ensures |StoreOf(cells)| == |cells| && StoreOf(cells[n..]) == StoreOf(cells)[n..]
  {
    assert cells == cells[..n] + cells[n..];
    StoreConcat(cells[..n], cells[n..]);
    StoreSize(cells);
    StoreSize(cells[..n]);
  }

  function Without(cells: seq<Cell>, i: nat): seq<Cell>
    requires i < |cells|
  {
    cells[..i] + cells[i + 1..]
  }

  lemma StoreWithout(cells: seq<Cell>, i: nat)
    requires i < |cells|
    ensures |StoreOf(cells)| == |cells| && StoreOf(Without(cells, i)) == Drop(StoreOf(cells), i)
  {
    StorePrefix(cells, i);
    StoreSuffix(cells, i + 1);
    StoreConcat(cells[..i], cells[i + 1..]);
  }

  class Cache {
    const enabled: bool
    const capacity: nat
    var cells: seq<Cell>

    ghost predicate Valid()
      reads this
    {
      capacity >= 1 && |cells| <= capacity
      && forall i, j | 0 <= i < j < |cells| :: cells[i].response != cells[j].response
    }

    ghost function Buffers(): set<object>
      reads this
    {
      set c | c in cells :: c.response
    }

    ghost function View(): Store
      reads this, Buffers()
    {
      StoreOf(cells)
    }

    constructor (enabled: bool, capacity: nat)
      ensures Valid() && View() == [] && this.enabled == enabled && this.capacity == Max(capacity, 1)
    {
      this.enabled := enabled;
      this.capacity := Max(capacity, 1);
      cells := [];
    }

    method Remove(i: nat)
      requires Valid() && i < |cells|
      modifies this`cells
      ensures cells == Without(old(cells), i) && forall c | c in cells :: c in old(cells)
      ensures Valid() && i < |old(View())| && View() == Drop(old(View()), i)
    {
      StoreWithout(cells, i);
      StoreSize(cells);
      cells := Without(cells, i);
    }

    /** Copy a hit into caller-owned storage; a miss leaves it unchanged. */
    method GetInto(meta: QueryMeta, id0: byte, id1: byte, now: nat, response: Message) returns (hit: bool)
      requires Valid()
      modifies this`cells, Buffers(), response
      ensures Valid()
      ensures !enabled ==> !hit && View() == old(View())
      ensures enabled ==>
                Outcome(if hit then Some(response.bytes) else None, View()) ==
                Get(old(View()), meta.key, id0, id1, now)
      ensures !hit ==> response.bytes == old(response.bytes)
    {
      if !enabled {
        return false;
      }
      SameIndex(cells, meta.key);
      var found := CellIndex(cells, meta.key);
      if found.None? {
        return false;
      }
      var i := found.value;
      StoreAt(cells, i);
      StoreWithout(cells, i);
      var elapsed := WholeSeconds(cells[i].agedAt, now);
      if elapsed >= cells[i].ttl {
        Remove(i);
        return false;
      }
      var current := RefreshCell(i, elapsed);
      if current.None? {
        return false;
      }
      response.bytes := Stamped(current.value.response[..], id0, id1);
      return true;
    }

    /** Slot `i` catches up and moves to the front, or goes when its buffer does not parse. */
    method RefreshCell(i: nat, elapsed: nat) returns (current: Option<Cell>)
      requires Valid() && i < |cells| && elapsed < cells[i].ttl
      modifies this`cells, cells[i].response
      ensures Valid() && i < |old(View())|
      ensures current.Some? ==> current.value.key == old(cells[i]).key
      ensures CatchUp(old(SlotOf(cells[i])).entry, elapsed)
              == if current.None? then None else Some(SlotOf(current.value).entry)
      ensures View() == (if current.None? then [] else [SlotOf(current.value)]) + Drop(old(View()), i)
    {
      StoreWithout(cells, i);
      current := CatchUpCell(i, elapsed);
      if current.None? {
        cells := Without(cells, i);
        assert View() == [] + Drop(old(View()), i);
      } else {
        Promote(i, current.value);
      }
    }

    /** Slot `i`, brought up to date, becomes the most recently used. */
    method Promote(i: nat, cell: Cell)
      requires Valid() && i < |cells| && cell.response == cells[i].response
      modifies this`cells
      ensures Valid() && View() == [SlotOf(cell)] + StoreOf(Without(old(cells), i))
    {
      cells := [cell] + Without(cells, i);
      assert cells[1..] == Without(old(cells), i);
    }

    /** Age the buffer of slot `i` once per whole second, keeping the fraction. */
    method CatchUpCell(i: nat, elapsed: nat) returns (r: Option<Cell>)
      requires Valid() && i < |cells| && elapsed < cells[i].ttl
      modifies cells[i].response
      ensures StoreOf(Without(cells, i)) == old(StoreOf(Without(cells, i)))
      ensures r.Some? ==> r.value.key == cells[i].key && r.value.response == cells[i].response
      ensures CatchUp(old(SlotOf(cells[i])).entry, elapsed) == if r.None? then None else Some(SlotOf(r.value).entry)
    {
      var cell := cells[i];
      if elapsed == 0 {
        return Some(cell);
      }
      var ok := AdjustTtlsInPlace(cell.response, elapsed);
      OthersUntouched(i);
      return if ok then Some(cell.(ttl := cell.ttl - elapsed, agedAt := cell.agedAt + elapsed * NANOS)) else None;
    }

    twostate lemma OthersUntouched(i: nat)
      requires old(Valid()) && cells == old(cells) && i < |cells|
      requires forall c | c in cells && c.response != cells[i].response :: unchanged(c.response)
      ensures StoreOf(Without(cells, i)) == old(StoreOf(Without(cells, i)))
    {
      forall c | c in Without(cells, i) ensures c in cells && c.response != cells[i].response {
        var j :| 0 <= j < |Without(cells, i)| && Without(cells, i)[j] == c;
        assert cells[if j < i then j else j + 1] == c;
      }
      SameStore(Without(cells, i));
    }

    twostate lemma {:induction false} SameStore(cells: seq<Cell>)
      requires forall c | c in cells :: unchanged(c.response)
      ensures StoreOf(cells) == old(StoreOf(cells))
      decreases |cells|
    {
      if cells != [] {
        SameStore(cells[1..]);
      }
    }

    /** Keep a private copy with a cleared ID, evicting the least recently used entry when full. */
    method InsertResponse(meta: QueryMeta, response: seq<byte>, now: nat)
      requires Valid()
      modifies this`cells
      ensures Valid()
      ensures View() == if enabled then Insert(old(View()), capacity, meta.key, response, now) else old(View())
    {
      if !enabled {
        return;
      }
      var ttl := ComputeCacheTtl(response, meta.key.qtype);
      if ttl.None? {
        return;
      }
      var stored := ClearedCopy(response);
      PutCell(Cell(meta.key, stored, now, ttl.value));
    }

    static method ClearedCopy(response: seq<byte>) returns (stored: array<byte>)
      requires |response| >= 2
      ensures fresh(stored) && stored[..] == WithId(response, 0, 0)
    {
      stored := new byte[|response|](i requires 0 <= i < |response| => response[i]);
      stored[0] := 0;
      stored[1] := 0;
    }

    method PutCell(cell: Cell)
      requires Valid() && forall c | c in cells :: c.response != cell.response
      modifies this`cells
      ensures Valid()
      ensures View() == Put(old(View()), capacity, cell.key, SlotOf(cell).entry)
    {
      SameIndex(cells, cell.key);
      var found := CellIndex(cells, cell.key);
      if found.Some? {
        Remove(found.value);
      }
      StoreSize(cells);
      if |cells| >= capacity {
        StorePrefix(cells, capacity - 1);
        cells := cells[..capacity - 1];
      }
      ghost var rest := cells;
      cells := [cell] + cells;
      assert cells[1..] == rest;
    }
  }
}
