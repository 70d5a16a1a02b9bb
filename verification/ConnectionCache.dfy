/** The connection cache: 16 pools of 16 slots, each pool visited only if its lock is free. */
module ConnectionCache {
  import opened Prelude

  const POOL_COUNT: nat := 16
  const POOL_SIZE: nat := 16

  /** A client is known by its identity: a unique pointer has one owner at a time. */
  datatype Client = Client(id: nat, baseUrl: string)

  type Slot = Option<Client>

  datatype Place = Dropped | Stored(pool: nat, slot: nat) | Evicted(pool: nat, slot: nat)

  /** The bitwise conjunction. */
  function And(a: nat, b: nat): nat {
    if a == 0 || b == 0 then 0 else 2 * And(a / 2, b / 2) + if a % 2 == 1 && b % 2 == 1 then 1 else 0
  }

  lemma AndAllOnes(a: nat, b: nat, half: nat)
    requires b == 2 * half + 1
    ensures And(a, b) == 2 * And(a / 2, half) + a % 2
  {
    assert b / 2 == half && b % 2 == 1;
  }

  lemma LowBit(x: nat)
    ensures And(x, 1) == x % 2
  {
    AndAllOnes(x, 1, 0);
  }

  lemma TwoLowBits(x: nat)
    ensures And(x, 3) == x % 4
  {
    AndAllOnes(x, 3, 1);
    LowBit(x / 2);
  }

  lemma ThreeLowBits(x: nat)
    ensures And(x, 7) == x % 8
  {
    AndAllOnes(x, 7, 3);
    TwoLowBits(x / 2);
  }

  /** The mask of the source keeps the remainder, because 16 is a power of two. */
  lemma MaskIsRemainder(x: nat)
    ensures And(x, POOL_COUNT - 1) == x % POOL_COUNT
  {
    AndAllOnes(x, 15, 7);
    ThreeLowBits(x / 2);
    Doubled(x / 2, x % 2);
    assert x == 2 * (x / 2) + x % 2;
  }

  lemma Doubled(h: nat, bit: nat)
    requires bit < 2
    ensures (2 * h + bit) % 16 == 2 * (h % 8) + bit
  {
    var q := h / 8;
    var r := h - 8 * q;
    RemainderOf16(2 * h + bit, q, 2 * r + bit);
  }

  lemma RemainderOf16(x: nat, q: nat, t: int)
    requires x == 16 * q + t && 0 <= t < 16
    ensures x % 16 == t
  {
  }

  /** The pool visited `i`-th by a probe that begins at `start`. */
  function Probe(start: nat, i: nat): (pool: nat)
    ensures pool == (start + i) % POOL_COUNT
  {
    MaskIsRemainder(start + i);
    And(start + i, POOL_COUNT - 1)
  }

  /** The turn at which a pool is visited. */
  function Turn(start: nat, pool: nat): (i: nat)
    requires start < POOL_COUNT && pool < POOL_COUNT
    ensures i < POOL_COUNT
  {
    if pool >= start then pool - start else pool + POOL_COUNT - start
  }

  /** From any start a probe visits each pool exactly once. */
  lemma ProbeVisitsOnce(start: nat, i: nat, pool: nat)
    requires start < POOL_COUNT && i < POOL_COUNT && pool < POOL_COUNT
    ensures Probe(start, i) == pool <==> i == Turn(start, pool)
  {
    Wraps(start + i);
  }

  lemma Wraps(x: nat)
    requires x < 2 * POOL_COUNT
    ensures x % POOL_COUNT == if x < POOL_COUNT then x else x - POOL_COUNT
  {
  }

  class Cache {
    const slots: array2<Slot>
    var poolIdx: nat            // the thread's last pool

    constructor (start: nat)
      requires start < POOL_COUNT
      ensures Valid() && poolIdx == start && fresh(slots)
      ensures forall p, j | 0 <= p < POOL_COUNT && 0 <= j < POOL_SIZE :: slots[p, j] == None
    {
      slots := new Slot[POOL_COUNT, POOL_SIZE]((_, _) => None);
      poolIdx := start;
    }

    /** No client is in two slots, and every cached client has a URL. */
    ghost predicate Valid()
      reads this, slots
    {
      && slots.Length0 == POOL_COUNT && slots.Length1 == POOL_SIZE && poolIdx < POOL_COUNT
      && (forall p, j, q, k | 0 <= p < POOL_COUNT && 0 <= j < POOL_SIZE && 0 <= q < POOL_COUNT && 0 <= k < POOL_SIZE
            && slots[p, j].Some? && slots[q, k].Some? && slots[p, j].value.id == slots[q, k].value.id ::
            p == q && j == k)
      && (forall p, j | 0 <= p < POOL_COUNT && 0 <= j < POOL_SIZE && slots[p, j].Some? ::
            slots[p, j].value.baseUrl != "")
    }

    predicate Holds(s: Slot, url: string) {
      s.Some? && s.value.baseUrl == url
    }

    /** The first slot of a pool with this URL. */
    method FindInPool(pool: nat, url: string) returns (j: nat)
      requires Valid() && pool < POOL_COUNT
      ensures j <= POOL_SIZE && (j < POOL_SIZE ==> Holds(slots[pool, j], url))
      ensures forall k | 0 <= k < j :: !Holds(slots[pool, k], url)
    {
      j := 0;
      while j < POOL_SIZE
        invariant j <= POOL_SIZE
        invariant forall k | 0 <= k < j :: !Holds(slots[pool, k], url)
      {
        if Holds(slots[pool, j], url) {
          return;
        }
        j := j + 1;
      }
    }

    method FindEmpty(pool: nat) returns (j: nat)
      requires Valid() && pool < POOL_COUNT
      ensures j <= POOL_SIZE && (j < POOL_SIZE ==> slots[pool, j] == None)
      ensures forall k | 0 <= k < j :: slots[pool, k].Some?
    {
      j := 0;
      while j < POOL_SIZE
        invariant j <= POOL_SIZE
        invariant forall k | 0 <= k < j :: slots[pool, k].Some?
      {
        if slots[pool, j].None? {
          return;
        }
        j := j + 1;
      }
    }

    /** Every slot but one is as before. */
    twostate predicate OnlyChanged(p: nat, j: nat)
      reads slots
    {
      && slots.Length0 == POOL_COUNT && slots.Length1 == POOL_SIZE
      && forall q, k | 0 <= q < POOL_COUNT && 0 <= k < POOL_SIZE && (q != p || k != j) ::
           slots[q, k] == old(slots[q, k])
    }

    ghost predicate Absent(id: nat)
      reads slots
    {
      && slots.Length0 == POOL_COUNT && slots.Length1 == POOL_SIZE
      && forall p, j | 0 <= p < POOL_COUNT && 0 <= j < POOL_SIZE :: slots[p, j].Some? ==> slots[p, j].value.id != id
    }

    ghost predicate NoneIn(p: nat, url: string)
      requires p < POOL_COUNT && slots.Length0 == POOL_COUNT && slots.Length1 == POOL_SIZE
      reads slots
    {
      forall j | 0 <= j < POOL_SIZE :: !Holds(slots[p, j], url)
    }

    ghost predicate Full(p: nat)
      requires p < POOL_COUNT && slots.Length0 == POOL_COUNT && slots.Length1 == POOL_SIZE
      reads slots
    {
      forall j | 0 <= j < POOL_SIZE :: slots[p, j].Some?
    }

    /** Takes the first client with the asked URL out of the cache, in probe order. It finds
        none exactly if no reachable pool has one, and then it changes nothing. */
    method Find(url: string, busy: nat -> bool) returns (client: Slot, ghost p: nat, ghost j: nat)
      requires Valid()
      modifies this`poolIdx, slots
      ensures Valid() && (client.None? ==>
                poolIdx == old(poolIdx) &&
                forall q, k | 0 <= q < POOL_COUNT && 0 <= k < POOL_SIZE :: slots[q, k] == old(slots[q, k]))
      ensures client.None? <==> url == "" || forall q | 0 <= q < POOL_COUNT && !busy(q) :: old(NoneIn(q, url))
      ensures client.Some? ==>
        && p < POOL_COUNT && j < POOL_SIZE && !busy(p) && poolIdx == p
        && client.value.baseUrl == url && old(slots[p, j]) == client && slots[p, j] == None && OnlyChanged(p, j)
        && Absent(client.value.id)
        && (forall k | 0 <= k < j :: !Holds(old(slots[p, k]), url))
        && forall i | 0 <= i < Turn(old(poolIdx), p) ::
             busy(Probe(old(poolIdx), i)) || old(NoneIn(Probe(poolIdx, i), url))
    {
      client, p, j := None, 0, 0;
      if url == "" {
        return;
      }
      var start := poolIdx;
      for i := 0 to POOL_COUNT
        invariant unchanged(this, slots)
        invariant forall t | 0 <= t < i :: busy(Probe(start, t)) || NoneIn(Probe(start, t), url)
      {
        var pool := Probe(start, i);
        ProbeVisitsOnce(start, i, pool);
        if busy(pool) {
          continue;
        }
        var slot := FindInPool(pool, url);
        if slot < POOL_SIZE {
          poolIdx := pool;
          client, p, j := slots[pool, slot], pool, slot;
          slots[pool, slot] := None;
          return;
        }
      }
      forall q | 0 <= q < POOL_COUNT && !busy(q)
        ensures NoneIn(q, url)
      {
        ProbeVisitsOnce(start, Turn(start, q), q);
      }
    }

    /** Puts a client into the first empty slot in probe order, else over a random one of the
        first pool in that order that can be locked, else drops it. At most one client is lost: the stored one
        or the evicted one. */
    method Store(client: Slot, busy: nat -> bool, busyAgain: nat -> bool, random: nat) returns (place: Place)
      requires Valid() && (client.Some? ==> Absent(client.value.id))
      modifies this`poolIdx, slots
      ensures Valid()
      ensures place.Dropped? ==>
        forall q, k | 0 <= q < POOL_COUNT && 0 <= k < POOL_SIZE :: slots[q, k] == old(slots[q, k])
      ensures !place.Dropped? ==>
        && place.pool < POOL_COUNT && place.slot < POOL_SIZE && poolIdx == place.pool
        && client.Some? && slots[place.pool, place.slot] == client && OnlyChanged(place.pool, place.slot)
      ensures place.Stored? ==>
        && !busy(place.pool) && old(slots[place.pool, place.slot]) == None
        && (forall k | 0 <= k < place.slot :: old(slots[place.pool, k]).Some?)
        && forall i | 0 <= i < Turn(old(poolIdx), place.pool) ::
             busy(Probe(old(poolIdx), i)) || old(Full(Probe(poolIdx, i)))
      ensures place.Evicted? ==>
        && !busyAgain(place.pool) && place.slot == random % POOL_SIZE
        && forall i | 0 <= i < Turn(old(poolIdx), place.pool) :: busyAgain(Probe(old(poolIdx), i))
      ensures place.Evicted? ==> forall q | 0 <= q < POOL_COUNT :: busy(q) || old(Full(q))
      ensures place.Dropped? <==>
        || client.None? || client.value.baseUrl == ""
        || forall q | 0 <= q < POOL_COUNT :: busyAgain(q) && (busy(q) || old(Full(q)))
    {
      place := Dropped;
      if client.None? || client.value.baseUrl == "" {
        return;
      }
      var start := poolIdx;
      for i := 0 to POOL_COUNT
        invariant unchanged(this, slots)
        invariant forall t | 0 <= t < i :: busy(Probe(start, t)) || Full(Probe(start, t))
      {
        var pool := Probe(start, i);
        ProbeVisitsOnce(start, i, pool);
        if busy(pool) {
          continue;
        }
        var slot := FindEmpty(pool);
        if slot < POOL_SIZE {
          place := Stored(pool, slot);
          slots[pool, slot] := client;
          poolIdx := pool;
          return;
        }
      }
      forall q | 0 <= q < POOL_COUNT
        ensures busy(q) || Full(q)
      {
        ProbeVisitsOnce(start, Turn(start, q), q);
      }
      for i := 0 to POOL_COUNT
        invariant unchanged(this, slots)
        invariant forall t | 0 <= t < i :: busyAgain(Probe(start, t))
      {
        var pool := Probe(start, i);
        ProbeVisitsOnce(start, i, pool);
        if busyAgain(pool) {
          continue;
        }
        var slot := random % POOL_SIZE;
        place := Evicted(pool, slot);
        slots[pool, slot] := client;
        poolIdx := pool;
        return;
      }
      forall q | 0 <= q < POOL_COUNT
        ensures busyAgain(q)
      {
        ProbeVisitsOnce(start, Turn(start, q), q);
      }
    }

    /** Empties every slot. */
    method Clear()
      requires Valid()
      modifies slots
      ensures Valid() && forall p, j | 0 <= p < POOL_COUNT && 0 <= j < POOL_SIZE :: slots[p, j] == None
    {
      for p := 0 to POOL_COUNT
        invariant Valid()
        invariant forall q, k | 0 <= q < p && 0 <= k < POOL_SIZE :: slots[q, k] == None
      {
        for j := 0 to POOL_SIZE
          invariant Valid()
          invariant forall q, k | 0 <= q < p && 0 <= k < POOL_SIZE :: slots[q, k] == None
          invariant forall k | 0 <= k < j :: slots[p, k] == None
        {
          slots[p, j] := None;
        }
      }
    }
  }
}
