/** Management subnets for the workers of a runtime, avoiding every network in use. */
module SubnetAllocator {
  import opened Numbers

  function Pow2(n: nat): (p: nat)
    ensures p >= 1
  {
    if n == 0 then 1 else 2 * Pow2(n - 1)
  }

  /** An IPv6 network never conflicts with a management subnet. */
  datatype Network = V4(first: nat, prefix: nat) | V6

  function Size(prefix: nat): (s: nat)
    requires prefix <= 32
    ensures s >= 1
  {
    Pow2(32 - prefix)
  }

  /** The block of addresses `first .. first + Size(prefix)`, aligned to its size (section 3.1 of
      RFC 4632). */
  ghost predicate IsBlock(n: Network) {
    n.V4? && n.prefix <= 32 && exists q: nat :: n.first == q * Size(n.prefix)
  }

  lemma Masked(address: nat, size: nat)
    requires size >= 1
    ensures address / size >= 0 && address / size * size >= 0
    ensures exists q: nat :: address / size * size == q * size
  {
    var q: nat := address / size;
    MulLe(0, q, size);
    assert address / size * size == q * size;
  }

  /** The block an address with host bits belongs to (`strict=False`). */
  function BlockOf(address: nat, prefix: nat): (n: Network)
    requires prefix <= 32
    ensures IsBlock(n) && n.prefix == prefix
  {
    Masked(address, Size(prefix));
    V4(address / Size(prefix) * Size(prefix), prefix)
  }

  /** Masking the address gives the network address. */
  predicate Contains(n: Network, address: nat)
    requires n.V4? && n.prefix <= 32
  {
    address / Size(n.prefix) * Size(n.prefix) == n.first
  }

  function Last(n: Network): nat
    requires n.V4? && n.prefix <= 32
  {
    n.first + Size(n.prefix) - 1
  }

  /** One of the four end points lies in the other network. */
  predicate Overlaps(a: Network, b: Network)
    requires a.V4? && a.prefix <= 32 && (b.V4? ==> b.prefix <= 32)
  {
    b.V4? && (Contains(b, a.first) || Contains(b, Last(a)) || Contains(a, b.first) || Contains(a, Last(b)))
  }

  predicate Holds(n: Network, address: int)
    requires n.V4? && n.prefix <= 32
  {
    n.first <= address <= Last(n)
  }

  /** For an aligned block, masking is membership of the interval. */
  lemma ContainsIsInterval(n: Network, address: nat)
    requires IsBlock(n)
    ensures Contains(n, address) <==> Holds(n, address)
  {
    var s := Size(n.prefix);
    var q: nat :| n.first == q * s;
    hide Size;
    var k := address / s;
    assert address == k * s + address % s;
    if k < q {
      MulGap(k, q, s);
    } else if q < k {
      MulGap(q, k, s);
    }
  }

  /** Blocks overlap, as the code decides it, exactly when some address lies in both. */
  lemma OverlapsIsIntersection(a: Network, b: Network)
    requires IsBlock(a) && IsBlock(b)
    ensures Overlaps(a, b) <==> exists x: nat :: Holds(a, x) && Holds(b, x)
  {
    ContainsIsInterval(a, b.first);
    ContainsIsInterval(b, a.first);
    ContainsIsInterval(a, Last(b));
    ContainsIsInterval(b, Last(a));
    hide Size;
    hide Contains;
    if x: nat :| Holds(a, x) && Holds(b, x) {
      assert Holds(a, b.first) || Holds(b, a.first);
    }
    if Overlaps(a, b) {
      assert Holds(b, a.first) || Holds(a, b.first);
      assert Holds(a, a.first) && Holds(b, b.first);
    }
  }

  // ---------------------------------------------------------------- candidates

  /** The two numbers a scale profile gives, within the range the profile model admits. */
  datatype Profile = Profile(prefix: nat, subnetBase: nat) {
    predicate Valid() { 16 <= prefix <= 30 && subnetBase <= 255 }
  }

  function Stride(p: Profile): (s: nat)
    ensures s >= 1
  {
    if p.prefix >= 24 then 1 else Pow2(24 - p.prefix)
  }

  /** `management_subnet`: the third octet for a worker, unless the block would pass 254. */
  function ThirdOctet(p: Profile, worker: int): Option<int> {
    var octet := p.subnetBase + if p.prefix == 24 then worker else (worker - 1) * Stride(p);
    if octet + Stride(p) - 1 > 254 then None else Some(octet)
  }

  /** The first worker gets the base octet, or with /24 blocks the one after it; each further worker
      gets the next stride; a worker has a block unless the block would reach past octet 254. */
  lemma OctetsByWorker(p: Profile, worker: nat)
    requires p.Valid() && worker >= 1
    ensures var first := p.subnetBase + (if p.prefix == 24 then 1 else 0);
      ThirdOctet(p, worker) == if first + worker * Stride(p) > 255 then None else Some(first + (worker - 1) * Stride(p))
  {
    MulSuccessor(worker - 1, Stride(p));
  }

  const BASE := 0xAC1F_0000

  /** The network of the candidate `172.31.<octet>.0/<prefix>`. */
  function Candidate(p: Profile, octet: nat): (n: Network)
    requires p.Valid()
    ensures IsBlock(n) && n.prefix == p.prefix
  {
    BlockOf(BASE + octet * 256, p.prefix)
  }

  predicate Known(used: seq<Network>) {
    forall i :: 0 <= i < |used| && used[i].V4? ==> used[i].prefix <= 32
  }

  predicate Conflicts(p: Profile, octet: nat, used: seq<Network>)
    requires p.Valid() && Known(used)
  {
    exists i :: 0 <= i < |used| && Overlaps(Candidate(p, octet), used[i])
  }

  /** The octets from `octet` on, in steps of the stride, whose networks avoid everything in use. */
  function Free(p: Profile, octet: nat, used: seq<Network>): seq<nat>
    requires p.Valid() && Known(used)
    decreases 255 - octet
  {
    if octet >= 255 then []
    else (if Conflicts(p, octet, used) then [] else [octet]) + Free(p, octet + Stride(p), used)
  }

  /** Octets `stride` apart give blocks that cannot touch, even when the base is not aligned. */
  lemma CandidatesApart(p: Profile, a: nat, b: nat)
    requires p.Valid() && a + Stride(p) <= b
    ensures Last(Candidate(p, a)) < Candidate(p, b).first
    ensures !Overlaps(Candidate(p, a), Candidate(p, b)) && !Overlaps(Candidate(p, b), Candidate(p, a))
  {
    StrideCoversBlock(p);
    var s := Size(p.prefix);
    var x, y := BASE + a * 256, BASE + b * 256;
    assert x + s <= y;
    QuotientsApart(x, y, s);
    OverlapsIsIntersection(Candidate(p, a), Candidate(p, b));
    OverlapsIsIntersection(Candidate(p, b), Candidate(p, a));
  }

  lemma QuotientsApart(x: nat, y: nat, s: nat)
    requires s >= 1 && x + s <= y
    ensures x / s * s + s <= y / s * s
  {
    assert x == x / s * s + x % s && y == y / s * s + y % s;
    if y / s < x / s {
      MulGap(y / s, x / s, s);
    } else if x / s < y / s {
      MulGap(x / s, y / s, s);
    }
  }

  lemma {:induction false} Pow2Add(a: nat, b: nat)
    ensures Pow2(a + b) == Pow2(a) * Pow2(b)
  {
    if a > 0 {
      Pow2Add(a - 1, b);
      assert 2 * (Pow2(a - 1) * Pow2(b)) == (2 * Pow2(a - 1)) * Pow2(b);
    }
  }

  /** The stride is no longer than a block has to be: it is the block, or a single octet. */
  lemma StrideIsBlock(p: Profile)
    requires p.Valid()
    ensures if p.prefix <= 24 then 256 * Stride(p) == Size(p.prefix) else Stride(p) == 1 && Size(p.prefix) < 256
  {
    Pow2Of8And16();
    if p.prefix <= 24 {
      Pow2Add(8, 24 - p.prefix);
    } else {
      Pow2Add(32 - p.prefix, p.prefix - 24);
      MulLe(2, Pow2(p.prefix - 24), Size(p.prefix));
      MulCommutes(Size(p.prefix), Pow2(p.prefix - 24));
    }
  }

  /** Prefixes from 16 to 30 and any base octet make a profile. */
  lemma ProfileBounds(p: Profile)
    ensures p.prefix == 16 || p.prefix == 30 ==> (p.Valid() <==> p.subnetBase < 256)
    ensures p.prefix < 16 || p.prefix > 30 ==> !p.Valid()
  {
  }

  lemma StrideCoversBlock(p: Profile)
    requires p.Valid()
    ensures Size(p.prefix) <= 256 * Stride(p)
  {
    Pow2Of8And16();
    if p.prefix >= 24 {
      Pow2Add(32 - p.prefix, p.prefix - 24);
      MulLe(1, Pow2(p.prefix - 24), Size(p.prefix));
      MulCommutes(Size(p.prefix), Pow2(p.prefix - 24));
    } else {
      Pow2Add(8, 24 - p.prefix);
    }
  }

  lemma Pow2Of8And16()
    ensures Pow2(8) == 256 && Pow2(16) == 65536
  {
    assert Pow2(4) == 16 && Pow2(8) == 16 * Pow2(4) && Pow2(12) == 16 * Pow2(8) && Pow2(16) == 16 * Pow2(12);
  }

  /** Every candidate block lies in 172.31.0.0/16. */
  lemma CandidateInside(p: Profile, octet: nat)
    requires p.Valid() && octet < 256
    ensures BASE <= Candidate(p, octet).first && Last(Candidate(p, octet)) < BASE + 65536
  {
    var s, parts := Size(p.prefix), Pow2(p.prefix - 16);
    Pow2Of8And16();
    Pow2Add(32 - p.prefix, p.prefix - 16);
    MultiplesOf(s, parts);
    var address := BASE + octet * 256;
    MultipleBelow(address, s, 0xAC1F * parts);
    MultipleAbove(address, s, 0xAC1F * parts + parts);
    hide Size;
    hide Pow2;
  }

  lemma MultipleBelow(x: nat, s: nat, k: nat)
    requires s >= 1 && k * s <= x
    ensures k * s <= x / s * s
  {
    assert x == x / s * s + x % s;
    if x / s < k { MulGap(x / s, k, s); }
    MulLe(k, x / s, s);
  }

  lemma MultipleAbove(x: nat, s: nat, k: nat)
    requires s >= 1 && x < k * s
    ensures x / s * s + s <= k * s
  {
    assert x == x / s * s + x % s;
    if k <= x / s { MulLe(k, x / s, s); }
    MulGap(x / s, k, s);
  }

  lemma MultiplesOf(s: nat, parts: nat)
    requires s * parts == 65536
    ensures (0xAC1F * parts) * s == BASE
    ensures (0xAC1F * parts + parts) * s == BASE + 65536
  {
    assert (0xAC1F * parts) * s == 0xAC1F * (s * parts);
    assert (0xAC1F * parts + parts) * s == (0xAC1F * parts) * s + s * parts;
  }

  ghost predicate Step(p: Profile, start: nat, octet: nat) {
    octet >= start && exists k: nat :: octet == start + k * Stride(p)
  }

  lemma StepRest(p: Profile, start: nat, octet: nat)
    requires Step(p, start, octet)
    ensures octet == start || Step(p, start + Stride(p), octet)
  {
    var k: nat :| octet == start + k * Stride(p);
    hide Stride;
    if k > 0 {
      assert k * Stride(p) == (k - 1) * Stride(p) + Stride(p);
      assert octet == (start + Stride(p)) + (k - 1) * Stride(p);
      MulLe(0, k - 1, Stride(p));
    }
  }

  lemma StepMore(p: Profile, start: nat, octet: nat)
    ensures Step(p, start, start)
    ensures Step(p, start + Stride(p), octet) ==> Step(p, start, octet)
  {
    hide Stride;
    assert start == start + 0 * Stride(p);
    if Step(p, start + Stride(p), octet) {
      var k: nat :| octet == start + Stride(p) + k * Stride(p);
      assert octet == start + (k + 1) * Stride(p);
    }
  }

  lemma FreeStep(p: Profile, octet: nat, used: seq<Network>)
    requires p.Valid() && Known(used)
    ensures Free(p, octet, used) ==
      if octet >= 255 then []
      else (if Conflicts(p, octet, used) then [] else [octet]) + Free(p, octet + Stride(p), used)
  {
  }

  /** The free octets are steps from the start that avoid everything in use, and rise by at least the
      stride ... */
  lemma {:induction false} FreeIsSound(p: Profile, start: nat, used: seq<Network>)
    requires p.Valid() && Known(used)
    ensures var free := Free(p, start, used);
      && (forall i, j :: 0 <= i < j < |free| ==> free[i] + Stride(p) <= free[j])
      && (forall i :: 0 <= i < |free| ==>
            Step(p, start, free[i]) && start <= free[i] < 255 && !Conflicts(p, free[i], used))
    decreases 255 - start
  {
    hide Conflicts;
    hide Stride;
    hide Free;
    hide Step;
    FreeStep(p, start, used);
    if start < 255 {
      FreeIsSound(p, start + Stride(p), used);
      forall octet ensures Step(p, start, start) && (Step(p, start + Stride(p), octet) ==> Step(p, start, octet)) {
        StepMore(p, start, octet);
      }
    }
  }

  /** ... and no step from the start that avoids everything in use is left out. */
  lemma {:induction false} FreeIsComplete(p: Profile, start: nat, used: seq<Network>, octet: nat)
    requires p.Valid() && Known(used)
    requires Step(p, start, octet) && octet < 255 && !Conflicts(p, octet, used)
    ensures octet in Free(p, start, used)
    decreases 255 - start
  {
    FreeStep(p, start, used);
    StepRest(p, start, octet);
    assert octet >= start;
    hide Conflicts;
    hide Stride;
    hide Free;
    hide Step;
    if octet != start { FreeIsComplete(p, start + Stride(p), used, octet); }
  }

  // ---------------------------------------------------------------- allocation

  /** The third octets of the chosen subnets, or None for the error. */
  method AllocateManagementSubnets(p: Profile, workers: int, used: seq<Network>) returns (chosen: Option<seq<nat>>)
    requires p.Valid() && Known(used)
    ensures var start := ThirdOctet(p, 1);
      chosen == if start.Some? && 1 <= workers <= |Free(p, start.value, used)|
                then Some(Free(p, start.value, used)[..workers]) else None
  {
    hide Conflicts;
    hide Stride;
    hide Free;
    hide Candidate;
    hide Overlaps;
    hide Known;
    var start := ThirdOctet(p, 1);
    if start.None? { return None; }
    assert start.value >= 0;
    hide ThirdOctet;
    ghost var free := Free(p, start.value, used);
    var selected: seq<nat> := [];
    var octet: nat := start.value;
    while octet < 255
      invariant free == selected + Free(p, octet, used)
      invariant workers >= 1 ==> |selected| < workers
      invariant forall i :: 0 <= i < |selected| ==> selected[i] + Stride(p) <= octet
      decreases 255 - octet
    {
      FreeStep(p, octet, used);
      ghost var later := Free(p, octet + Stride(p), used);
      var conflict := AnyOverlap(p, octet, used);
      var own := OverlapsSelected(p, octet, selected);
      if !conflict && !own {
        assert selected + ([octet] + later) == (selected + [octet]) + later;
        selected := selected + [octet];
        if |selected| == workers {
          assert free[..workers] == selected;
          return Some(selected);
        }
      } else {
        assert [] + later == later;
      }
      octet := octet + Stride(p);
    }
    FreeStep(p, octet, used);
    assert selected + [] == selected;
    return None;
  }

  method AnyOverlap(p: Profile, octet: nat, used: seq<Network>) returns (found: bool)
    requires p.Valid() && Known(used)
    ensures found == Conflicts(p, octet, used)
  {
    found := false;
    for i := 0 to |used|
      invariant found <==> exists k :: 0 <= k < i && Overlaps(Candidate(p, octet), used[k])
    {
      if Overlaps(Candidate(p, octet), used[i]) { found := true; }
    }
  }

  /** The check against the subnets selected so far never fires. */
  method OverlapsSelected(p: Profile, octet: nat, selected: seq<nat>) returns (found: bool)
    requires p.Valid() && forall i :: 0 <= i < |selected| ==> selected[i] + Stride(p) <= octet
    ensures !found
  {
    found := false;
    for i := 0 to |selected|
      invariant !found
    {
      CandidatesApart(p, selected[i], octet);
      if Overlaps(Candidate(p, octet), Candidate(p, selected[i])) { found := true; }
    }
  }

  /** What the chosen subnets promise: pairwise no address in common, none in common with a network in
      use, all inside 172.31.0.0/16. */
  lemma ChosenAreDisjoint(p: Profile, workers: nat, used: seq<Network>, i: nat)
    requires p.Valid() && Known(used) && ThirdOctet(p, 1).Some?
    requires i < workers <= |Free(p, ThirdOctet(p, 1).value, used)|
    ensures var free := Free(p, ThirdOctet(p, 1).value, used);
      var own := Candidate(p, free[i]);
      && BASE <= own.first && Last(own) < BASE + 65536
      && (forall j :: 0 <= j < workers && j != i ==>
            forall x :: !(Holds(own, x) && Holds(Candidate(p, free[j]), x)))
      && (forall k :: 0 <= k < |used| && IsBlock(used[k]) ==> forall x :: !(Holds(own, x) && Holds(used[k], x)))
  {
    var start := ThirdOctet(p, 1).value;
    var free := Free(p, start, used);
    FreeIsSound(p, start, used);
    hide Free;
    hide Stride;
    hide Candidate;
    var own := Candidate(p, free[i]);
    CandidateInside(p, free[i]);
    forall j | 0 <= j < workers && j != i ensures forall x :: !(Holds(own, x) && Holds(Candidate(p, free[j]), x)) {
      if i < j {
        CandidatesApart(p, free[i], free[j]);
      } else {
        CandidatesApart(p, free[j], free[i]);
      }
    }
    forall k | 0 <= k < |used| && IsBlock(used[k]) ensures forall x :: !(Holds(own, x) && Holds(used[k], x)) {
      assert !Overlaps(own, used[k]);
      OverlapsIsIntersection(own, used[k]);
      forall x ensures !(Holds(own, x) && Holds(used[k], x)) {}
    }
  }

  /** A /16 has no room below octet 254, so that profile can never be allocated. */
  lemma WholeRangeNeverFits(p: Profile)
    requires p.Valid() && p.prefix == 16
    ensures ThirdOctet(p, 1) == None
  {
    Pow2Of8And16();
  }
}
