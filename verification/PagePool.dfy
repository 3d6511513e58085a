/** The page-pool bitmap: finding a free page, and the population count. */
module PagePool {
  const WORD: nat := 64

  ghost predicate FullWord(used: seq<bool>, w: nat)
    requires w * WORD + WORD <= |used|
  {
    forall b: nat {:trigger used[b]} :: w * WORD <= b < w * WORD + WORD ==> used[b]
  }

  /** The word visited `j` steps after `hint`. */
  function Wrap(hint: nat, j: nat, words: nat): (w: nat)
    requires hint < words && j < words
    ensures w < words
  {
    if hint + j < words then hint + j else hint + j - words
  }

  /** The first `k` words from the hint on are full. */
  ghost predicate FullBefore(used: seq<bool>, words: nat, hint: nat, k: nat)
    requires |used| == words * WORD && hint < words && k <= words
  {
    forall j: nat {:trigger Wrap(hint, j, words)} :: j < k ==> FullWord(used, Wrap(hint, j, words))
  }

  lemma WrapIsModulo(hint: nat, j: nat, words: nat)
    requires hint < words && j < words
    ensures Wrap(hint, j, words) == (hint + j) % words
  {
    if hint + j >= words {
      ModMinus(hint + j, words);
    } else {
      ModSmall(hint + j, words);
    }
  }

  lemma ModSmall(a: nat, n: nat)
    requires a < n
    ensures a % n == a
  {
  }

  lemma ModMinus(a: nat, n: nat)
    requires n <= a < n + n
    ensures a % n == a - n
  {
    var q := a / n;
    assert a == n * q + a % n;
    assert q <= 0 ==> n * q <= 0;
    assert q >= 2 ==> n * (q - 2) >= 0;
  }

  /** The search of `alloc_page`: the lowest clear bit of the first word, cyclically
      from the hint, that is not full.  It fails only when every page is taken. */
  method FindClear(used: array<bool>, words: nat, hint: nat) returns (ok: bool, c: nat)
    requires used.Length == words * WORD && hint < words
    ensures ok ==> c < used.Length && !used[c]
    ensures ok ==> forall b: nat {:trigger used[b]} :: c / WORD * WORD <= b < c ==> used[b]
    ensures ok ==>
              exists k: nat :: k < words && c / WORD == Wrap(hint, k, words) && FullBefore(used[..], words, hint, k)
    ensures !ok ==> forall p: nat {:trigger used[p]} :: p < used.Length ==> used[p]
  {
    var k := 0;
    while k < words
      invariant k <= words
      invariant FullBefore(used[..], words, hint, k)
    {
      WrapIsModulo(hint, k, words);
      var idx := (hint + k) % words;
      var bit := 0;
      while bit < WORD && used[idx * WORD + bit]
        invariant bit <= WORD
        invariant forall b: nat {:trigger used[b]} :: idx * WORD <= b < idx * WORD + bit ==> used[b]
      {
        bit := bit + 1;
      }
      if bit < WORD {
        c := idx * WORD + bit;
        return true, c;
      }
      k := k + 1;
    }
    forall p: nat | p < used.Length
      ensures used[p]
    {
      var w := p / WORD;
      var j := if w >= hint then w - hint else w + words - hint;
      assert Wrap(hint, j, words) == w;
      assert FullWord(used[..], w) && used[..][p] == used[p];
    }
    return false, 0;
  }

  /** The loop that frees a retired batch: bit `id % 64` of the batch word stands for page `id`. */
  method SweepBatch(used: array<bool>, bits: array<bool>, ghost keys: set<nat>) returns (ok: bool, freed: nat)
    requires used != bits && bits.Length == WORD <= used.Length
    requires forall b: nat {:trigger bits[b]} :: b < WORD ==> (bits[b] <==> b in keys)
    requires forall b :: b in keys ==> b < WORD
    modifies used, bits
    ensures ok <==> forall b :: b in keys ==> old(used[..])[b]
    ensures ok ==> freed == |keys|
    ensures ok ==> forall b: nat {:trigger bits[b]} :: b < WORD ==> !bits[b]
    ensures ok ==> forall p: nat {:trigger used[p]} :: p < used.Length ==> (used[p] <==> old(used[p]) && p !in keys)
  {
    freed := 0;
    ghost var done: set<nat> := {};
    for id := 0 to used.Length
      invariant done == (set b | b in keys && b < id) && freed == |done|
      invariant forall b: nat {:trigger bits[b]} :: b < WORD ==> (bits[b] <==> b in keys && b >= id)
      invariant forall p: nat {:trigger used[p]} :: p < used.Length ==> (used[p] <==> old(used[p]) && p !in done)
      invariant forall b :: b in done ==> old(used[..])[b]
    {
      if bits[id % WORD] {
        if !used[id] {
          assert id in keys && !old(used[..])[id];
          return false, freed;
        }
        used[id] := false;
        bits[id % WORD] := false;
        freed := freed + 1;
        done := done + {id};
      }
    }
    assert done == keys;
    return true, freed;
  }
}
