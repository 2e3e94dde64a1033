/** Foreground leases with lazy pruning: an expired entry disappears when somebody asks for it. */
module ActiveLeases {
  import opened Common

  const I64_MAX := 0x7FFF_FFFF_FFFF_FFFF
  const I64_MIN := -0x8000_0000_0000_0000

  function Distance(x: int, y: int): nat {
    if x <= y then y - x else x - y
  }

  /** The representable number nearest to `x`. */
  function Saturate(x: int): (r: int)
    ensures -0x8000_0000_0000_0000 <= r <= 0x7FFF_FFFF_FFFF_FFFF
    ensures forall y :: -0x8000_0000_0000_0000 <= y <= 0x7FFF_FFFF_FFFF_FFFF ==> Distance(x, r) <= Distance(x, y)
  {
    if x > I64_MAX then I64_MAX else if x < I64_MIN then I64_MIN else x
  }

  /** The listed conversations expire at `expiry`, the others as before. */
  function Renewed(leases: map<string, int>, convs: seq<string>, expiry: int): map<string, int> {
    map c | c in leases.Keys + (set x | x in convs) :: if c in convs then expiry else leases[c]
  }

  lemma RenewedStep(leases: map<string, int>, convs: seq<string>, n: nat, expiry: int)
    requires n < |convs|
    ensures Renewed(leases, convs[..n + 1], expiry) == Renewed(leases, convs[..n], expiry)[convs[n] := expiry]
  {
    assert convs[..n + 1] == convs[..n] + [convs[n]];
  }

  /** Looking a lease up after a renewal. */
  lemma RenewedExactly(leases: map<string, int>, convs: seq<string>, expiry: int, c: string)
    ensures c in Renewed(leases, convs, expiry) <==> c in leases || c in convs
    ensures c in convs ==> Renewed(leases, convs, expiry)[c] == expiry
    ensures c in leases && c !in convs ==> Renewed(leases, convs, expiry)[c] == leases[c]
  {
  }

  class ActiveLeaseRegistry {
    var leases: map<string, int>
    const ttl: int

    ghost var unpruned: map<string, int> // every lease ever renewed, with its latest expiry
    ghost var clock: int                 // the latest clock reading

    /** What was pruned had expired by then, and the clock does not run backwards. */
    ghost predicate Valid()
      reads this
    {
      && (forall c :: c in leases ==> c in unpruned && leases[c] == unpruned[c])
      && (forall c :: c in unpruned && unpruned[c] > clock ==> c in leases)
    }

    constructor (ttl: int, now: int)
      ensures Valid() && unpruned == map[] && clock == now && this.ttl == ttl
    {
      this.ttl := ttl;
      leases := map[];
      unpruned, clock := map[], now;
    }

    method Renew(conv: string, now: int) returns (expiresAt: int)
      requires Valid() && clock <= now
      modifies this
      ensures Valid() && clock == now
      ensures expiresAt == Saturate(now + ttl) && unpruned == old(unpruned)[conv := expiresAt]
    {
      expiresAt := Saturate(now + ttl);
      leases := leases[conv := expiresAt];
      unpruned, clock := unpruned[conv := expiresAt], now;
    }

    method RenewMany(convs: seq<string>, now: int) returns (count: nat, expiresAt: int)
      requires Valid() && clock <= now
      modifies this
      ensures Valid() && clock == now
      ensures count == |convs| && expiresAt == Saturate(now + ttl)
      ensures unpruned == Renewed(old(unpruned), convs, expiresAt)
    {
      expiresAt := Saturate(now + ttl);
      count := 0;
      clock := now;
      while count < |convs|
        invariant count <= |convs| && clock == now && Valid()
        invariant unpruned == Renewed(old(unpruned), convs[..count], expiresAt)
      {
        RenewedStep(old(unpruned), convs, count, expiresAt);
        leases := leases[convs[count] := expiresAt];
        unpruned := unpruned[convs[count] := expiresAt];
        count := count + 1;
      }
      assert convs[..count] == convs;
    }

    /** Answers as if nothing had ever been pruned. */
    method ActiveUntil(conv: string, now: int) returns (r: Option<int>)
      requires Valid() && clock <= now
      modifies this
      ensures Valid() && clock == now && unpruned == old(unpruned)
      ensures r == if conv in unpruned && unpruned[conv] > now then Some(unpruned[conv]) else None
    {
      clock := now;
      if conv !in leases {
        return None;
      }
      var expiresAt := leases[conv];
      if expiresAt > now {
        return Some(expiresAt);
      }
      leases := leases - {conv};
      return None;
    }
  }
}
