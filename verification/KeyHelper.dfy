/** Pre-key generation (key_helper.c): the id arithmetic and the list of keys. */
module KeyHelper {
  import opened Common
  import opened Terms

  /** Ids cycle through 1 .. 0xFFFFFE. */
  const CYCLE: u32 := 0xFFFFFE

  datatype PreKey = PreKey(id: u32, pair: KeyPair)

  /** `start - 1` in 32-bit unsigned arithmetic. */
  function StartIndex(start: u32): u32 {
    if start == 0 then U32_LIMIT - 1 else start - 1
  }

  function PreKeyId(start: u32, i: u32): (id: u32)
    ensures 1 <= id < PRE_KEY_MEDIUM_MAX_VALUE
  {
    (StartIndex(start) + i) % U32_LIMIT % CYCLE + 1
  }

  /** `supply` numbers the key pairs drawn from the random source. */
  method GeneratePreKeys(start: u32, count: u32, supply: nat) returns (keys: seq<PreKey>)
    ensures |keys| == count
    ensures forall i :: 0 <= i < count ==> keys[i] == PreKey(PreKeyId(start, i), GeneratePair(supply + i))
    ensures forall i :: 0 <= i < count ==> keys[i].id != PRE_KEY_MEDIUM_MAX_VALUE
  {
    keys := [];
    var startIndex := StartIndex(start);
    var i: u32 := 0;
    while i < count
      invariant i <= count && |keys| == i
      invariant forall j :: 0 <= j < i ==> keys[j] == PreKey(PreKeyId(start, j), GeneratePair(supply + j))
    {
      var id := (startIndex + i) % U32_LIMIT % CYCLE + 1;
      keys := keys + [PreKey(id, GeneratePair(supply + i))];
      i := i + 1;
    }
  }

  method GenerateLastResortPreKey(supply: nat) returns (key: PreKey)
    ensures key == PreKey(PRE_KEY_MEDIUM_MAX_VALUE, GeneratePair(supply))
    ensures forall start: u32, i: u32 :: PreKeyId(start, i) != key.id
  {
    key := PreKey(PRE_KEY_MEDIUM_MAX_VALUE, GeneratePair(supply));
  }

  ghost predicate DistinctIds(start: u32, count: u32) {
    forall i: u32, j: u32 :: i < j < count ==> PreKeyId(start, i) != PreKeyId(start, j)
  }

  /** The batch fits one cycle, and either stays clear of the 32-bit wrap or is short. */
  predicate FitsCycle(start: u32, count: u32) {
    count <= CYCLE && (StartIndex(start) + count <= U32_LIMIT || count <= 512)
  }

  lemma PreKeyIdsDiffer(start: u32, count: u32, i: u32, j: u32)
    requires FitsCycle(start, count) && i < j < count
    ensures PreKeyId(start, i) != PreKeyId(start, j)
  {
    var a := StartIndex(start);
    var wrap := U32_LIMIT - a;
    if i < wrap <= j {
      assert (a + i) % CYCLE == 512 - (wrap - i);
      assert (a + j) % U32_LIMIT == j - wrap;
    } else if j < wrap {
      assert (a + i) % U32_LIMIT == a + i && (a + j) % U32_LIMIT == a + j;
    } else {
      assert (a + i) % U32_LIMIT == i - wrap && (a + j) % U32_LIMIT == j - wrap;
    }
  }

  /** Two equal ids in every batch that does not fit. */
  lemma PreKeyIdsCollide(start: u32, count: u32) returns (i: u32, j: u32)
    requires !FitsCycle(start, count)
    ensures i < j < count && PreKeyId(start, i) == PreKeyId(start, j)
  {
    var a := StartIndex(start);
    var wrap := U32_LIMIT - a;
    if count <= wrap {
      i, j := 0, CYCLE;
      assert (a + j) % U32_LIMIT == a + CYCLE;
    } else if wrap > 512 {
      i, j := wrap - 512, wrap;
      assert (a + i) % U32_LIMIT == 256 * CYCLE && (a + j) % U32_LIMIT == 0;
    } else {
      i, j := 0, 512;
      assert a == 256 * CYCLE + (512 - wrap) && (a + j) % U32_LIMIT == 512 - wrap;
    }
  }

  /** All ids of a batch are distinct exactly when the batch fits. */
  lemma PreKeyIdsDistinct(start: u32, count: u32)
    ensures DistinctIds(start, count) <==> FitsCycle(start, count)
  {
    if FitsCycle(start, count) {
      forall i: u32, j: u32 | i < j < count
        ensures PreKeyId(start, i) != PreKeyId(start, j)
      {
        PreKeyIdsDiffer(start, count, i, j);
      }
    } else {
      var i, j := PreKeyIdsCollide(start, count);
    }
  }

  /** From a start in range the ids count up by one, and go on with 1 after 0xFFFFFE. */
  lemma PreKeyIdsCountUp(start: u32, i: u32)
    requires 1 <= start < PRE_KEY_MEDIUM_MAX_VALUE && start + i < U32_LIMIT
    ensures PreKeyId(start, 0) == start
    ensures i > 0 ==>
              var before := PreKeyId(start, i - 1);
              PreKeyId(start, i) == if before + 1 == PRE_KEY_MEDIUM_MAX_VALUE then 1 else before + 1
  {
  }
}
