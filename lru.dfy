/**
 * One cache set as a sequence of stored tags, least recently used at the
 * front and most recently used at the back (src/cache.c, the Set queue and
 * setPush / setPop / setPopIndex), and the replacement rule the access
 * functions apply to it.
 *
 * The second half gives an independent definition of least-recently-used
 * replacement (the `assoc` most recently used distinct tags, ordered by last
 * use) and proves that the access rule computes exactly that.
 */
module Lru {
  import opened Wrappers

  /** No tag is stored twice in a set. */
  predicate Distinct(s: seq<nat>)
  {
    forall i, j :: 0 <= i < j < |s| ==> s[i] != s[j]
  }

  /** The scan of the access loop: position of the first line holding `tag`, from the front. */
  function Find(s: seq<nat>, tag: nat): (r: Option<nat>)
    ensures r.Some? ==> r.value < |s| && s[r.value] == tag && tag !in s[..r.value]
    ensures r.None? ==> tag !in s
  {
    if s == [] then None
    else if s[0] == tag then Some(0)
    else
      match Find(s[1..], tag)
      case None =>
        assert s == [s[0]] + s[1..];
        None
      case Some(i) =>
        assert s[..i + 1] == [s[0]] + s[1..][..i];
        Some(i + 1)
  }

  /** The set with the line at `pos` taken out (setPopIndex). */
  function RemoveAt(s: seq<nat>, pos: nat): (r: seq<nat>)
    requires pos < |s|
    ensures |r| == |s| - 1
    ensures forall j :: 0 <= j < |r| ==> r[j] == s[if j < pos then j else j + 1]
    ensures multiset(r) + multiset{s[pos]} == multiset(s)
  {
    assert s == s[..pos] + [s[pos]] + s[pos + 1..];
    s[..pos] + s[pos + 1..]
  }

  /** The set after its front (least recent) line is dropped; an empty set is left as it is (setPop). */
  function Evict(s: seq<nat>): seq<nat>
  {
    if s == [] then [] else s[1..]
  }

  /** A hit: the line at `pos` moves to the back, every other line keeps its place in the order. */
  function Touch(s: seq<nat>, pos: nat): (r: seq<nat>)
    requires pos < |s|
    ensures |r| == |s| && multiset(r) == multiset(s)
    ensures r[|r| - 1] == s[pos] && r[..|r| - 1] == RemoveAt(s, pos)
  {
    RemoveAt(s, pos) + [s[pos]]
  }

  /** A miss: evict the front line when the set holds `assoc` lines, then append the new tag. */
  function Insert(s: seq<nat>, tag: nat, assoc: nat): seq<nat>
  {
    (if |s| == assoc then Evict(s) else s) + [tag]
  }

  datatype SetAccess = SetAccess(lines: seq<nat>, hit: bool)

  /** One reference to a set: scan for the tag, touch it on a hit, insert it on a miss. */
  function Access(s: seq<nat>, tag: nat, assoc: nat): SetAccess
  {
    match Find(s, tag)
    case Some(pos) => SetAccess(Touch(s, pos), true)
    case None => SetAccess(Insert(s, tag, assoc), false)
  }

  /**
   * What one access does to a set: it hits exactly when the tag is stored, the
   * tag ends up most recent either way, a hit only reorders the set, and a miss
   * drops the front line exactly when the set was full.
   */
  lemma AccessOutcome(s: seq<nat>, tag: nat, assoc: nat)
    ensures var r := Access(s, tag, assoc);
      && (r.hit <==> tag in s)
      && |r.lines| > 0 && r.lines[|r.lines| - 1] == tag
      && (r.hit ==> |r.lines| == |s| && multiset(r.lines) == multiset(s))
      && (!r.hit ==> r.lines[..|r.lines| - 1] == if |s| == assoc then Evict(s) else s)
  {
    var r := Access(s, tag, assoc);
    if !r.hit {
      assert r.lines == (if |s| == assoc then Evict(s) else s) + [tag];
    }
  }

  /** Removing every copy of `x` from a sequence. */
  function RemoveVal(s: seq<nat>, x: nat): (r: seq<nat>)
    ensures forall y :: y in r <==> y in s && y != x
    ensures |r| <= |s|
  {
    if s == [] then []
    else
      assert s == [s[0]] + s[1..];
      (if s[0] == x then [] else [s[0]]) + RemoveVal(s[1..], x)
  }

  lemma {:induction false} RemoveValConcat(a: seq<nat>, b: seq<nat>, x: nat)
    ensures RemoveVal(a + b, x) == RemoveVal(a, x) + RemoveVal(b, x)
  {
    if a == [] {
      assert a + b == b;
    } else {
      var head := if a[0] == x then [] else [a[0]];
      assert (a + b)[0] == a[0];
      assert (a + b)[1..] == a[1..] + b;
      RemoveValConcat(a[1..], b, x);
      calc {
        RemoveVal(a + b, x);
        head + RemoveVal(a[1..] + b, x);
        head + (RemoveVal(a[1..], x) + RemoveVal(b, x));
        (head + RemoveVal(a[1..], x)) + RemoveVal(b, x);
        RemoveVal(a, x) + RemoveVal(b, x);
      }
    }
  }

  lemma {:induction false} RemoveValAbsent(s: seq<nat>, x: nat)
    requires x !in s
    ensures RemoveVal(s, x) == s
  {
    if s != [] {
      RemoveValAbsent(s[1..], x);
      assert s == [s[0]] + s[1..];
    }
  }

  /** A sequence is the part before `pos`, the element at `pos`, and the part after it. */
  lemma SplitAt(s: seq<nat>, pos: nat)
    requires pos < |s|
    ensures s == s[..pos] + ([s[pos]] + s[pos + 1..])
  {
  }

  lemma RemoveValSingle(before: seq<nat>, x: nat, after: seq<nat>)
    requires x !in before && x !in after
    ensures RemoveVal(before + ([x] + after), x) == before + after
  {
    assert RemoveVal([x], x) == [] by {
      assert [x][1..] == [];
    }
    calc {
      RemoveVal(before + ([x] + after), x);
      { RemoveValConcat(before, [x] + after, x); }
      RemoveVal(before, x) + RemoveVal([x] + after, x);
      { RemoveValConcat([x], after, x); }
      RemoveVal(before, x) + (RemoveVal([x], x) + RemoveVal(after, x));
      { RemoveValAbsent(before, x); RemoveValAbsent(after, x); }
      before + ([] + after);
      before + after;
    }
  }

  /** In a set without repeated tags, taking out the line at `pos` removes its tag and nothing else. */
  lemma RemoveAtIsRemoveVal(s: seq<nat>, pos: nat)
    requires Distinct(s) && pos < |s|
    ensures RemoveAt(s, pos) == RemoveVal(s, s[pos])
  {
    var x := s[pos];
    var before, after := s[..pos], s[pos + 1..];
    forall j | 0 <= j < pos ensures before[j] != x { assert s[j] != s[pos]; }
    forall j | 0 <= j < |after| ensures after[j] != x { assert s[pos + 1 + j] != s[pos]; }
    SplitAt(s, pos);
    RemoveValSingle(before, x, after);
  }

  /**
   * A hit keeps the relative order of every other line: the set afterwards is
   * the old set without the tag, followed by the tag.
   */
  lemma AccessHitOrder(s: seq<nat>, tag: nat, assoc: nat)
    requires Distinct(s) && tag in s
    ensures Access(s, tag, assoc) == SetAccess(RemoveVal(s, tag) + [tag], true)
  {
    var pos := Find(s, tag).value;
    RemoveAtIsRemoveVal(s, pos);
  }

  /**
   * The set invariant is kept: with at least one way, a set never holds a tag
   * twice and never holds more than `assoc` lines.
   */
  lemma AccessKeepsSetInvariant(s: seq<nat>, tag: nat, assoc: nat)
    requires assoc >= 1 && |s| <= assoc && Distinct(s)
    ensures var r := Access(s, tag, assoc).lines; Distinct(r) && |r| <= assoc
  {
    match Find(s, tag)
    case Some(pos) =>
      RemoveAtIsRemoveVal(s, pos);
      assert Distinct(RemoveVal(s, tag) + [tag]);
    case None =>
      var kept := if |s| == assoc then Evict(s) else s;
      assert forall y :: y in kept ==> y in s;
      assert Distinct(kept + [tag]);
  }

  // ---------------------------------------------------------------------
  // LRU as a reference definition
  // ---------------------------------------------------------------------

  /**
   * The distinct tags of a reference history, each placed at its LAST use:
   * least recently used first.
   */
  function Recency(h: seq<nat>): (r: seq<nat>)
    ensures forall x :: x in r <==> x in h
    ensures Distinct(r)
  {
    if h == [] then []
    else if h[0] in h[1..] then Recency(h[1..])
    else
      assert h == [h[0]] + h[1..];
      [h[0]] + Recency(h[1..])
  }

  /** The last (most recent) `n` entries of a sequence. */
  function LastN(s: seq<nat>, n: nat): seq<nat>
  {
    if |s| <= n then s else s[|s| - n..]
  }

  /** Using `x` once more moves it to the back of the recency order. */
  lemma {:induction false} RecencySnoc(h: seq<nat>, x: nat)
    ensures Recency(h + [x]) == RemoveVal(Recency(h), x) + [x]
  {
    if h == [] {
      assert [] + [x] == [x];
    } else {
      var y, t := h[0], h[1..];
      var hx := h + [x];
      assert hx[0] == y && hx[1..] == t + [x];
      RecencySnoc(t, x);
      var rt := Recency(t);
      if y !in t {
        assert Recency(h) == [y] + rt;
        assert ([y] + rt)[0] == y && ([y] + rt)[1..] == rt;
        if y == x {
          assert RemoveVal([y] + rt, x) == RemoveVal(rt, x);
        } else {
          assert y !in t + [x];
          assert RemoveVal([y] + rt, x) == [y] + RemoveVal(rt, x);
        }
      }
    }
  }

  lemma LastNSnoc(a: seq<nat>, x: nat, k: nat)
    requires k >= 1
    ensures LastN(a + [x], k) == LastN(a, k - 1) + [x]
  {
    if |a| + 1 > k {
      assert (a + [x])[|a| + 1 - k..] == a[|a| - (k - 1)..] + [x];
    }
  }

  lemma LastNSuffix(p: seq<nat>, q: seq<nat>, n: nat)
    requires |q| >= n
    ensures LastN(p + q, n) == LastN(q, n)
  {
    assert (p + q)[|p + q| - n..] == q[|q| - n..];
  }

  lemma DistinctSuffix(s: seq<nat>, m: nat)
    requires Distinct(s) && m <= |s|
    ensures Distinct(s[m..])
  {
    forall i, j | 0 <= i < j < |s| - m ensures s[m..][i] != s[m..][j] {
      assert s[m + i] != s[m + j];
    }
  }

  /** A recency order is its older part followed by its last `k` entries. */
  lemma LastNSplit(R: seq<nat>, k: nat)
    ensures var L := LastN(R, k);
      && R == R[..|R| - |L|] + L
      && (|R| <= k ==> L == R)
      && (|R| > k ==> |L| == k)
  {
  }

  lemma LastNOfShort(s: seq<nat>, n: nat)
    requires |s| <= n
    ensures LastN(s, n) == s
  {
  }

  /** The facts about a hit that need the recency order to be free of repeats. */
  lemma HitFacts(R: seq<nat>, x: nat, k: nat)
    requires Distinct(R) && x in LastN(R, k)
    ensures var L := LastN(R, k);
      && x !in R[..|R| - |L|]
      && Access(L, x, k) == SetAccess(RemoveVal(L, x) + [x], true)
      && |RemoveVal(L, x)| + 1 == |L|
  {
    var L := LastN(R, k);
    var m := |R| - |L|;
    LastNSplit(R, k);
    DistinctSuffix(R, m);
    assert L == R[m..];
    var i := Find(L, x).value;
    assert R[m + i] == x;
    forall j | 0 <= j < m ensures R[..m][j] != x { assert R[j] != R[m + i]; }
    AccessHitOrder(L, x, k);
    RemoveAtIsRemoveVal(L, i);
  }

  lemma HitCombine(P: seq<nat>, L: seq<nat>, x: nat, k: nat)
    requires k >= 1 && x !in P && |RemoveVal(L, x)| + 1 == |L|
    requires (P == [] && |L| <= k) || |L| == k
    ensures LastN(RemoveVal(P + L, x), k - 1) == RemoveVal(L, x)
  {
    RemoveValConcat(P, L, x);
    RemoveValAbsent(P, x);
    if |L| == k {
      LastNSuffix(P, RemoveVal(L, x), k - 1);
    } else {
      assert P + RemoveVal(L, x) == RemoveVal(L, x);
    }
    LastNOfShort(RemoveVal(L, x), k - 1);
  }

  /** A hit on a set holding the last `k` tags of recency order `R`. */
  lemma LruStepHit(R: seq<nat>, x: nat, k: nat)
    requires k >= 1 && Distinct(R) && x in LastN(R, k)
    ensures Access(LastN(R, k), x, k) == SetAccess(LastN(RemoveVal(R, x), k - 1) + [x], true)
  {
    var L := LastN(R, k);
    var P := R[..|R| - |L|];
    LastNSplit(R, k);
    HitFacts(R, x, k);
    HitCombine(P, L, x, k);
  }

  /** A miss on a set holding the last `k` tags of recency order `R`. */
  lemma LruStepMiss(R: seq<nat>, x: nat, k: nat)
    requires k >= 1 && x !in LastN(R, k)
    ensures Access(LastN(R, k), x, k) == SetAccess(LastN(RemoveVal(R, x), k - 1) + [x], false)
  {
    var L := LastN(R, k);
    var P := R[..|R| - |L|];
    LastNSplit(R, k);
    assert Find(L, x).None?;
    assert Access(L, x, k) == SetAccess(Insert(L, x, k), false);
    RemoveValConcat(P, L, x);
    RemoveValAbsent(L, x);
    MissKeeps(RemoveVal(P, x), L, k);
  }

  /** The lines a miss keeps are the last `k - 1` entries of the recency order without the new tag. */
  lemma MissKeeps(Q: seq<nat>, L: seq<nat>, k: nat)
    requires k >= 1 && ((Q == [] && |L| <= k) || |L| == k)
    ensures LastN(Q + L, k - 1) == (if |L| == k then Evict(L) else L)
  {
    if |L| == k {
      LastNSuffix(Q, L, k - 1);
      assert LastN(L, k - 1) == L[1..];
    } else {
      assert Q + L == L;
      LastNOfShort(L, k - 1);
    }
  }

  /**
   * The inductive step of the LRU theorem: if a set holds the `k` most recently
   * used tags of history `h`, one access with tag `x` hits exactly when `x` is
   * among them, and leaves the `k` most recently used tags of `h + [x]`.
   */
  lemma AccessIsLruStep(h: seq<nat>, x: nat, k: nat)
    requires k >= 1
    ensures var a := Access(LastN(Recency(h), k), x, k);
      && (a.hit <==> x in LastN(Recency(h), k))
      && a.lines == LastN(Recency(h + [x]), k)
  {
    var R := Recency(h);
    RecencySnoc(h, x);
    LastNSnoc(RemoveVal(R, x), x, k);
    if x in LastN(R, k) {
      LruStepHit(R, x, k);
    } else {
      LruStepMiss(R, x, k);
    }
  }

  /** The set obtained by running the access rule over a history, from an empty set. */
  function Replay(h: seq<nat>, assoc: nat): seq<nat>
  {
    if h == [] then [] else Access(Replay(h[..|h| - 1], assoc), h[|h| - 1], assoc).lines
  }

  /** Replaying one more access is one more application of the access rule. */
  lemma ReplaySnoc(h: seq<nat>, x: nat, assoc: nat)
    ensures Replay(h + [x], assoc) == Access(Replay(h, assoc), x, assoc).lines
  {
    assert (h + [x])[..|h|] == h;
  }

  /**
   * The access rule is exactly least-recently-used replacement: after any
   * history a set holds the `assoc` most recently used distinct tags, least
   * recent at the front.
   */
  lemma {:induction false} ReplayIsLru(h: seq<nat>, assoc: nat)
    requires assoc >= 1
    ensures Replay(h, assoc) == LastN(Recency(h), assoc)
  {
    if h != [] {
      var init, x := h[..|h| - 1], h[|h| - 1];
      assert h == init + [x];
      ReplayIsLru(init, assoc);
      AccessIsLruStep(init, x, assoc);
    }
  }
}
