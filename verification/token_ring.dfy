/** The `Token` class of lib/rate_limiter.js: a cyclic singly linked list of
    tokens, each recording the earliest instant (milliseconds since the epoch)
    at which the token may be used again. Object references are modelled as
    indices into a sequence; a `null` link is `None`. */
module TokenRing {
  import opened Results
  import ModArith

  datatype Token = Token(readyAt: int, next: Option<nat>)

  /** The index after `i` in a ring of `n` tokens: the next one, or the
      first after the last. */
  function Next(n: int, i: int): int
  {
    if i + 1 < n then i + 1 else 0
  }

  /** Stepping round the ring is adding one modulo its size. */
  lemma NextIsSucc(n: int, i: int)
    requires 0 <= i < n
    ensures Next(n, i) == (i + 1) % n
  {
    if i + 1 < n {
      ModArith.Unique(i + 1, 0, i + 1, n);
    } else {
      ModArith.Unique(n, 1, 0, n);
    }
  }

  /** Every token links to its successor, and the last one back to the first. */
  ghost predicate IsRing(tokens: seq<Token>)
  {
    forall i {:trigger tokens[i]} :: 0 <= i < |tokens| ==> tokens[i].next == Some(Next(|tokens|, i))
  }

  /** `Token.ring(n, readyTs)`: creates `n` tokens ready at `readyTs`, links
      each to the one created after it, closes the cycle, and returns the
      first token (index 0). With `n` below 1 the source dereferences an
      undefined `previous`; its only caller passes `n >= 1`. */
  method Ring(n: int, readyTs: int) returns (tokens: seq<Token>, first: nat)
    requires n >= 1
    ensures |tokens| == n
    ensures IsRing(tokens)
    ensures first == 0
    ensures forall i :: 0 <= i < n ==> tokens[i].readyAt == readyTs
  {
    var previous: nat := 0;
    first := 0;
    tokens := [];
    for i := 0 to n
      invariant |tokens| == i
      invariant i > 0 ==> previous == i - 1
      invariant first == 0
      invariant forall j :: 0 <= j < i - 1 ==> tokens[j].next == Some(j + 1)
      invariant i > 0 ==> tokens[i - 1].next.None?
      invariant forall j :: 0 <= j < i ==> tokens[j].readyAt == readyTs
    {
      var token := Token(readyTs, None);  // `new Token(readyTs)`: ready, not yet linked
      if i == 0 {
        tokens := [token];
        first, previous := 0, 0;
      } else {
        tokens := tokens[previous := tokens[previous].(next := Some(i))] + [token];
        previous := i;
      }
    }
    tokens := tokens[previous := tokens[previous].(next := Some(first))];
  }

  /** The token reached from token `i` by following `next` `k` times. */
  function Follow(tokens: seq<Token>, i: nat, k: nat): (j: nat)
    requires IsRing(tokens) && i < |tokens|
    ensures j < |tokens|
    decreases k
  {
    if k == 0 then i else Follow(tokens, tokens[i].next.value, k - 1)
  }

  /** Following `k` links from token `i` moves `k` places round the ring. */
  lemma {:induction false} FollowShifts(tokens: seq<Token>, i: nat, k: nat)
    requires IsRing(tokens) && i < |tokens|
    ensures Follow(tokens, i, k) == (i + k) % |tokens|
    decreases k
  {
    var n := |tokens|;
    if k == 0 {
      ModArith.Unique(i, 0, i, n);
    } else {
      var j := tokens[i].next.value;
      NextIsSucc(n, i);
      FollowShifts(tokens, j, k - 1);
      ModArith.ReduceLeft(i + 1, k - 1, n);
    }
  }

  /** The ring is one cycle through all its tokens: `n` links lead back to
      the start, and no shorter walk does. */
  lemma RingCycle(tokens: seq<Token>, i: nat)
    requires IsRing(tokens) && i < |tokens|
    ensures Follow(tokens, i, |tokens|) == i
    ensures forall k :: 0 < k < |tokens| ==> Follow(tokens, i, k) != i
  {
    var n := |tokens|;
    FollowShifts(tokens, i, n);
    ModArith.Unique(i + n, 1, i, n);
    forall k | 0 < k < n
      ensures Follow(tokens, i, k) != i
    {
      FollowShifts(tokens, i, k);
      ModArith.Distinct(i, i + k, n);
      ModArith.Unique(i, 0, i, n);
    }
  }
}
