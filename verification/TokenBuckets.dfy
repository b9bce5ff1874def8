/** Token-count buckets (aiter/fused_moe.py) and the finite support check over them (aiter/fhmoe.py). */
module TokenBuckets {
  import opened Results

  function Pow2(k: nat): (p: nat)
    ensures p >= 1
  {
    if k == 0 then 1 else 2 * Pow2(k - 1)
  }

  /** int.bit_length of a nonnegative number. */
  function BitLength(n: nat): nat {
    if n == 0 then 0 else 1 + BitLength(n / 2)
  }

  function NextPow2(n: int): int {
    if n <= 1 then 1 else Pow2(BitLength(n - 1))
  }

  const TIER_1 := 32768
  const TIER_2 := 131072

  /** The tuning bucket of a token count. */
  function PaddedM(m: int): int {
    if m < TIER_1 then NextPow2(m) else if m >= TIER_2 then TIER_2 else TIER_1
  }

  /** The value in each tier: the least power of two below 32768 tokens, then 32768, and 131072 from there on. */
  lemma {:induction false} PaddedMInEachTier(m: int) returns (k: nat)
    ensures m < 32768 ==> PaddedM(m) == Pow2(k) && m <= Pow2(k) && forall j: nat :: m <= Pow2(j) ==> Pow2(k) <= Pow2(j)
    ensures 32768 <= m < 131072 ==> PaddedM(m) == 32768
    ensures 131072 <= m ==> PaddedM(m) == 131072
  {
    k := NextPow2IsLeast(m);
  }

  /** The bit length brackets a number between two powers of two. */
  lemma {:induction false} BitLengthBrackets(n: nat)
    ensures n < Pow2(BitLength(n))
    ensures n > 0 ==> BitLength(n) > 0 && Pow2(BitLength(n) - 1) <= n
    decreases n
  {
    if n > 0 {
      BitLengthBrackets(n / 2);
    }
  }

  lemma {:induction false} Pow2Monotone(a: nat, b: nat)
    requires a <= b
    ensures Pow2(a) <= Pow2(b)
    decreases b
  {
    if a < b {
      Pow2Monotone(a, b - 1);
    }
  }

  lemma {:induction false} Pow2Doubles(a: nat, b: nat)
    requires Pow2(a) < Pow2(b)
    ensures 2 * Pow2(a) <= Pow2(b)
  {
    if b <= a {
      Pow2Monotone(b, a);
    }
    Pow2Monotone(a + 1, b);
  }

  /** nextPow2 is the least power of two that is at least n. */
  lemma {:induction false} NextPow2IsLeast(n: int) returns (k: nat)
    ensures NextPow2(n) == Pow2(k) && n <= Pow2(k)
    ensures forall j: nat :: n <= Pow2(j) ==> Pow2(k) <= Pow2(j)
  {
    if n <= 1 {
      k := 0;
    } else {
      k := BitLength(n - 1);
      BitLengthBrackets(n - 1);
      forall j: nat | n <= Pow2(j)
        ensures Pow2(k) <= Pow2(j)
      {
        Pow2Doubles(k - 1, j);
      }
    }
  }

  lemma {:induction false} NextPow2OfPower(k: nat)
    ensures NextPow2(Pow2(k)) == Pow2(k)
  {
    var j := NextPow2IsLeast(Pow2(k));
  }

  lemma {:induction false} TierIsPower()
    ensures TIER_1 == Pow2(15) && TIER_2 == Pow2(17)
  {
    assert Pow2(5) == 32;
    assert Pow2(10) == 1024;
    assert Pow2(15) == 32768;
  }

  /** Between a number and its next power there is nothing else to round to. */
  lemma {:induction false} SameBucket(m: int, max: int)
    requires 1 <= m <= max < NextPow2(m)
    ensures NextPow2(max) == NextPow2(m)
  {
    var k := NextPow2IsLeast(m);
    var j := NextPow2IsLeast(max);
    assert Pow2(j) <= Pow2(k) && Pow2(k) <= Pow2(j);
  }

  lemma {:induction false} PowerBelow(k: nat, max: nat)
    ensures Pow2(k) <= max <==> k < BitLength(max)
  {
    BitLengthBrackets(max);
    if k < BitLength(max) {
      Pow2Monotone(k, BitLength(max) - 1);
    } else {
      Pow2Monotone(BitLength(max), k);
    }
  }

  // ---------------------------------------------------------------------------
  // The required tokens
  // ---------------------------------------------------------------------------

  ghost predicate PowerBucket(t: int, k: nat) {
    t == PaddedM(Pow2(k))
  }

  ghost predicate PowerBuckets(t: int, n: nat) {
    exists k: nat :: k < n && PowerBucket(t, k)
  }

  ghost predicate Required(t: int, max: nat) {
    t == PaddedM(max) || PowerBuckets(t, BitLength(max))
  }

  ghost predicate BucketOf(t: int, m: int) {
    PaddedM(m) == t
  }

  lemma {:induction false} RequiredPower(k: nat, max: nat)
    requires k < BitLength(max)
    ensures Required(PaddedM(Pow2(k)), max)
  {
    assert PowerBucket(PaddedM(Pow2(k)), k);
  }

  lemma {:induction false} OneMoreBucket(t: int, n: nat)
    ensures PowerBuckets(t, n + 1) <==> PowerBuckets(t, n) || PowerBucket(t, n)
  {
  }

  /** Every count from one to the maximum falls into a required bucket. */
  lemma {:induction false} BucketIsRequired(m: int, max: nat)
    requires 1 <= m <= max
    ensures Required(PaddedM(m), max)
  {
    TierIsPower();
    if m < TIER_1 {
      var k := NextPow2IsLeast(m);
      if Pow2(k) <= max {
        PowerBelow(k, max);
        RequiredPower(k, max);
        NextPow2OfPower(k);
        assert Pow2(k) <= Pow2(15);
      } else {
        SameBucket(m, max);
        assert Pow2(k) <= Pow2(15);
      }
    } else {
      var k: nat := if m >= TIER_2 then 17 else 15;
      PowerBelow(k, max);
      RequiredPower(k, max);
    }
  }

  /** The finite set is exactly the buckets of all counts from one to the maximum. */
  lemma {:induction false} RequiredExactly(t: int, max: nat)
    requires 1 <= max
    ensures Required(t, max) <==> exists m :: 1 <= m <= max && BucketOf(t, m)
  {
    if exists m :: 1 <= m <= max && BucketOf(t, m) {
      var m :| 1 <= m <= max && BucketOf(t, m);
      BucketIsRequired(m, max);
    }
    if Required(t, max) {
      if t == PaddedM(max) {
        assert BucketOf(t, max);
      } else {
        var k: nat :| k < BitLength(max) && PowerBucket(t, k);
        PowerBelow(k, max);
        assert BucketOf(t, Pow2(k));
      }
    }
  }

  // ---------------------------------------------------------------------------
  // The support checks
  // ---------------------------------------------------------------------------

  method RequiredTokens(max: nat) returns (required: set<int>)
    ensures forall t :: t in required <==> Required(t, max)
  {
    required := {};
    for e := 0 to BitLength(max)
      invariant forall t :: t in required <==> PowerBuckets(t, e)
    {
      forall t
        ensures PowerBuckets(t, e + 1) <==> PowerBuckets(t, e) || PowerBucket(t, e)
      {
        OneMoreBucket(t, e);
      }
      required := AddBucket(required, PaddedM(Pow2(e)));
    }
    required := AddBucket(required, PaddedM(max));
  }

  function AddBucket(required: set<int>, t: int): (r: set<int>)
    ensures forall u :: u in r <==> u in required || u == t
  {
    required + {t}
  }

  ghost predicate AllValid(max: nat, valid: int -> bool) {
    forall m :: 1 <= m <= max ==> valid(PaddedM(m))
  }

  lemma {:induction false} RequiredCoversAll(required: set<int>, max: nat, valid: int -> bool)
    requires 1 <= max && forall t :: t in required <==> Required(t, max)
    ensures (forall t :: t in required ==> valid(t)) <==> AllValid(max, valid)
  {
    if forall t :: t in required ==> valid(t) {
      forall m | 1 <= m <= max
        ensures valid(PaddedM(m))
      {
        BucketIsRequired(m, max);
      }
    }
    if AllValid(max, valid) {
      forall t | t in required
        ensures valid(t)
      {
        RequiredExactly(t, max);
        var m :| 1 <= m <= max && BucketOf(t, m);
      }
    }
  }

  /** An element of a set, in no particular order. */
  method Any(s: set<int>) returns (t: int)
    requires s != {}
    ensures t in s
  {
    assert (forall u: int :: u !in s) ==> s == {};
    t :| t in s;
  }

  /** Accepts the configuration exactly when its lookup is valid for every token count up to the maximum;
      valid stands for the table lookup, false where that raises. */
  method SupportsConfig(max: nat, valid: int -> bool) returns (ok: bool)
    requires 1 <= max
    ensures ok <==> AllValid(max, valid)
  {
    var required := RequiredTokens(max);
    RequiredCoversAll(required, max, valid);
    var todo := required;
    while todo != {}
      invariant todo <= required && forall t :: t in required - todo ==> valid(t)
    {
      var token := Any(todo);
      if !valid(token) {
        return false;
      }
      todo := todo - {token};
    }
    return true;
  }

  /** The check that also judges the metadata of the largest bucket: the loop always meets that bucket. */
  method SupportsMxfp8Config<M>(max: nat, lookup: int -> Option<M>, compatible: M -> bool, fits: M -> bool)
    returns (ok: bool)
    requires 1 <= max
    ensures ok <==> (forall m :: 1 <= m <= max ==> lookup(PaddedM(m)).Some? && compatible(lookup(PaddedM(m)).value))
                    && fits(lookup(PaddedM(max)).value)
  {
    var maxBucket := PaddedM(max);
    var maxMetadata := None;
    var required := RequiredTokens(max);
    ghost var valid := (t: int) => lookup(t).Some? && compatible(lookup(t).value);
    RequiredCoversAll(required, max, valid);
    assert forall m :: 1 <= m <= max ==>
      (valid(PaddedM(m)) <==> lookup(PaddedM(m)).Some? && compatible(lookup(PaddedM(m)).value));
    var todo := required;
    while todo != {}
      invariant todo <= required && forall t :: t in required - todo ==> valid(t)
      invariant if maxBucket in todo then maxMetadata == None else maxMetadata == lookup(maxBucket) && maxMetadata.Some?
    {
      var token := Any(todo);
      var metadata := lookup(token);
      if metadata.None? || !compatible(metadata.value) {
        assert !valid(token);
        return false;
      }
      if token == maxBucket {
        maxMetadata := metadata;
      }
      todo := todo - {token};
    }
    if maxMetadata.None? {
      return false;
    }
    return fits(maxMetadata.value);
  }
}
