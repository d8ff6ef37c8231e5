/** The shuffle plan of PerformGame, shared by both versions of GameManager: the pairs of shells
    that swap places, read off the stream of Random.Range draws exactly as the swap loop draws
    them, and the exchange of positions those pairs produce. */
module Shuffle {
  import opened Motion

  datatype Option<T> = None | Some(value: T)

  /** One shuffle step: the registry indices of the two shells that exchange places. */
  datatype Swap = Swap(first: int, second: int)

  /** The rejection loop that redraws the second index until it differs from the first: the
      position, at or after i, of the first draw that is not first, or None if the stream runs
      out before one comes. */
  function Redraw(draws: seq<int>, first: int, i: nat): (r: Option<nat>)
    decreases |draws| - i
    ensures r.Some? ==> i <= r.value < |draws| && draws[r.value] != first
    ensures r.Some? ==> forall k :: i <= k < r.value ==> draws[k] == first
    ensures r.None? <==> forall k :: i <= k < |draws| ==> draws[k] == first
  {
    if i >= |draws| then None
    else if draws[i] != first then Some(i)
    else Redraw(draws, first, i + 1)
  }

  /** The count swaps of one shuffle, in order, read from position c of the stream on: each
      takes one draw for its first index and then draws until the second index differs. None
      if the stream is too short. */
  function DrawSwaps(draws: seq<int>, c: nat, count: nat): (r: Option<seq<Swap>>)
    decreases count
    ensures r.Some? ==> |r.value| == count
  {
    if count == 0 then Some([])
    else if c >= |draws| then None
    else match Redraw(draws, draws[c], c + 1)
      case None => None
      case Some(k) =>
        match DrawSwaps(draws, k + 1, count - 1)
        case None => None
        case Some(rest) => Some([Swap(draws[c], draws[k])] + rest)
  }

  /** The draws of one pass of the swap loop, starting at cursor c: the first index, then the
      second redrawn for as long as it equals the first. The pass yields the next swap of the
      plan and the cursor where the rest of the plan starts. */
  method DrawPair(draws: seq<int>, c: nat, count: nat, ghost plan: seq<Swap>)
      returns (sw: Swap, next: nat, remaining: nat, ghost rest: seq<Swap>)
    requires count > 0
    requires DrawSwaps(draws, c, count) == Some(plan)
    ensures c + 2 <= next <= |draws|
    ensures sw.first == draws[c] && sw.second == draws[next - 1] && sw.first != sw.second
    ensures remaining == count - 1 && DrawSwaps(draws, next, remaining) == Some(rest)
    ensures plan == [sw] + rest
  {
    remaining := count - 1;
    ghost var k := Redraw(draws, draws[c], c + 1).value;
    var first := draws[c];
    var second := draws[c + 1];
    next := c + 2;
    while first == second
      invariant c + 2 <= next <= k + 1
      invariant second == draws[next - 1]
      decreases k + 1 - next
    {
      second := draws[next];
      next := next + 1;
    }
    sw := Swap(first, second);
    rest := DrawSwaps(draws, next, count - 1).value;
  }

  /** Moving the next swap of a plan from the part to come to the part done. */
  lemma PlanStep(plan: seq<Swap>, done: seq<Swap>, sw: Swap, rest: seq<Swap>)
    requires plan == done + ([sw] + rest)
    ensures plan == (done + [sw]) + rest
  {
  }

  /** Every swap of a plan moves two different shells. */
  lemma {:induction false} DrawnSwapsDistinct(draws: seq<int>, c: nat, count: nat)
    requires DrawSwaps(draws, c, count).Some?
    ensures forall k :: 0 <= k < count ==>
      DrawSwaps(draws, c, count).value[k].first != DrawSwaps(draws, c, count).value[k].second
    decreases count
  {
    if count > 0 {
      var k := Redraw(draws, draws[c], c + 1).value;
      DrawnSwapsDistinct(draws, k + 1, count - 1);
    }
  }

  predicate InRange(draws: seq<int>, n: int)
  {
    forall k :: 0 <= k < |draws| ==> 0 <= draws[k] < n
  }

  predicate SwapsInRange(swaps: seq<Swap>, n: int)
  {
    forall k :: 0 <= k < |swaps| ==> 0 <= swaps[k].first < n && 0 <= swaps[k].second < n
  }

  /** Draws of Random.Range(0, n) give swaps of shells of a registry of n. */
  lemma {:induction false} DrawnSwapsInRange(draws: seq<int>, c: nat, count: nat, n: int)
    requires InRange(draws, n)
    requires DrawSwaps(draws, c, count).Some?
    ensures SwapsInRange(DrawSwaps(draws, c, count).value, n)
    decreases count
  {
    if count > 0 {
      var k := Redraw(draws, draws[c], c + 1).value;
      DrawnSwapsInRange(draws, k + 1, count - 1, n);
    }
  }

  /** One positional exchange: the element at each index takes the other's old value. */
  function SwapAt<T>(s: seq<T>, sw: Swap): (r: seq<T>)
    requires 0 <= sw.first < |s| && 0 <= sw.second < |s|
    ensures |r| == |s|
    ensures r[sw.first] == s[sw.second] && r[sw.second] == s[sw.first]
    ensures forall k :: 0 <= k < |s| && k != sw.first && k != sw.second ==> r[k] == s[k]
  {
    s[sw.first := s[sw.second]][sw.second := s[sw.first]]
  }

  /** The contents after the swaps, applied in order. */
  function ApplySwaps<T>(s: seq<T>, swaps: seq<Swap>): (r: seq<T>)
    requires SwapsInRange(swaps, |s|)
    ensures |r| == |s|
  {
    if swaps == [] then s
    else SwapAt(ApplySwaps(s, swaps[..|swaps| - 1]), swaps[|swaps| - 1])
  }

  lemma ApplySwapsSnoc<T>(s: seq<T>, swaps: seq<Swap>, sw: Swap)
    requires SwapsInRange(swaps, |s|)
    requires 0 <= sw.first < |s| && 0 <= sw.second < |s|
    ensures SwapsInRange(swaps + [sw], |s|)
    ensures ApplySwaps(s, swaps + [sw]) == SwapAt(ApplySwaps(s, swaps), sw)
  {
    assert (swaps + [sw])[..|swaps|] == swaps;
  }

  /** Swapping the same two shells twice puts both back where they were. */
  lemma SwapTwiceRestores<T>(s: seq<T>, sw: Swap)
    requires 0 <= sw.first < |s| && 0 <= sw.second < |s|
    ensures SwapAt(SwapAt(s, sw), sw) == s
  {
  }

  /** A swap permutes the contents. */
  lemma SwapPermutes<T>(s: seq<T>, sw: Swap)
    requires 0 <= sw.first < |s| && 0 <= sw.second < |s|
    ensures multiset(SwapAt(s, sw)) == multiset(s)
  {
    var i, j := sw.first, sw.second;
    if i != j {
      var t := s[i := s[j]];
      assert multiset(t) == multiset(s) - multiset{s[i]} + multiset{s[j]};
      assert multiset(t[j := s[i]]) == multiset(t) - multiset{t[j]} + multiset{s[i]};
    }
  }

  /** Any sequence of swaps permutes the contents: no shell's place is lost or duplicated. */
  lemma {:induction false} ApplySwapsPermutes<T>(s: seq<T>, swaps: seq<Swap>)
    requires SwapsInRange(swaps, |s|)
    ensures multiset(ApplySwaps(s, swaps)) == multiset(s)
  {
    if swaps != [] {
      var init := swaps[..|swaps| - 1];
      ApplySwapsPermutes(s, init);
      SwapPermutes(ApplySwaps(s, init), swaps[|swaps| - 1]);
    }
  }

  /** The shells stand in pairwise different columns: no two share an x coordinate. */
  predicate Spread(ps: seq<Vec2>)
  {
    forall i, j :: 0 <= i < |ps| && 0 <= j < |ps| && i != j ==> ps[i].x != ps[j].x
  }

  lemma SwapKeepsSpread(ps: seq<Vec2>, sw: Swap)
    requires 0 <= sw.first < |ps| && 0 <= sw.second < |ps|
    requires Spread(ps)
    ensures Spread(SwapAt(ps, sw))
  {
    var r := SwapAt(ps, sw);
    forall i, j | 0 <= i < |r| && 0 <= j < |r| && i != j ensures r[i].x != r[j].x {
      var i' := if i == sw.first then sw.second else if i == sw.second then sw.first else i;
      var j' := if j == sw.first then sw.second else if j == sw.second then sw.first else j;
      assert r[i] == ps[i'] && r[j] == ps[j'];
    }
  }

  /** Shuffling keeps the shells in pairwise different columns. */
  lemma {:induction false} ApplySwapsKeepsSpread(ps: seq<Vec2>, swaps: seq<Swap>)
    requires SwapsInRange(swaps, |ps|)
    requires Spread(ps)
    ensures Spread(ApplySwaps(ps, swaps))
  {
    if swaps != [] {
      var init := swaps[..|swaps| - 1];
      ApplySwapsKeepsSpread(ps, init);
      SwapKeepsSpread(ApplySwaps(ps, init), swaps[|swaps| - 1]);
    }
  }
}
