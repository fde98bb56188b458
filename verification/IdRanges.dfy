/** DNS transaction ids handed out by the XDP workers: each worker cycles through
    its own slice of the 16-bit id space (src/transport/xdp/receiver.rs). */
module IdRanges {
  import opened Machine

  const ID_SPACE: nat := 65536

  function Span(workers: nat): nat {
    Max(ID_SPACE / Max(workers, 1), 1)
  }

  function Base(workers: nat, w: nat): U16 {
    (w % Max(workers, 1)) * Span(workers) % ID_SPACE
  }

  /** The id of worker `w`'s `ctr`-th allocation, with both u16 casts and the
      wrapping add of the code. */
  function IdAt(workers: nat, w: nat, ctr: nat): U16 {
    (Base(workers, w) + ctr % Span(workers) % ID_SPACE) % ID_SPACE
  }

  lemma SpanFits(workers: nat, w: nat)
    requires 1 <= workers <= ID_SPACE && w < workers
    ensures w * Span(workers) + Span(workers) <= ID_SPACE
  {
  }

  lemma MulMono(a: nat, b: nat, c: nat)
    requires a <= b
    ensures a * c <= b * c
  {
  }

  /** No cast truncates and the add never wraps: the id is its range's start plus
      the position of the allocation in the range. */
  lemma IdInRange(workers: nat, w: nat, ctr: nat)
    requires 1 <= workers <= ID_SPACE && w < workers
    ensures IdAt(workers, w, ctr) == w * Span(workers) + ctr % Span(workers)
    ensures w * Span(workers) <= IdAt(workers, w, ctr) < (w + 1) * Span(workers)
  {
    SpanFits(workers, w);
    assert w % workers == w by { ModUnique(w, workers, 0, w); }
    var span := Span(workers);
    assert 0 <= ctr % span < span;
    assert (w + 1) * span == w * span + span;
    assert ctr % span < ID_SPACE;
  }

  /** Two workers never use the same id. */
  lemma RangesDisjoint(workers: nat, w1: nat, w2: nat, c1: nat, c2: nat)
    requires 1 <= workers <= ID_SPACE && w1 < w2 < workers
    ensures IdAt(workers, w1, c1) < IdAt(workers, w2, c2)
  {
    IdInRange(workers, w1, c1);
    IdInRange(workers, w2, c2);
    MulMono(w1 + 1, w2, Span(workers));
  }

  /** A worker repeats an id exactly every Span allocations. */
  lemma RepeatsExactlyEverySpan(workers: nat, w: nat, c: nat, d: nat)
    requires 1 <= workers <= ID_SPACE && w < workers
    ensures IdAt(workers, w, c) == IdAt(workers, w, c + d) <==> d % Span(workers) == 0
  {
    IdInRange(workers, w, c);
    IdInRange(workers, w, c + d);
    SameResidue(c, d, Span(workers));
  }

  lemma SameResidue(c: nat, d: nat, m: nat)
    requires m > 0
    ensures c % m == (c + d) % m <==> d % m == 0
  {
    var q, r := c / m, c % m;
    assert c == m * q + r;
    if d % m == 0 {
      assert c + d == m * (q + d / m) + r by { assert d == m * (d / m) + d % m; }
      ModUnique(c + d, m, q + d / m, r);
    }
    if c % m == (c + d) % m {
      var k := (c + d) / m - q;
      assert d == m * k + 0 by { assert c + d == m * ((c + d) / m) + (c + d) % m; }
      ModUnique(d, m, k, 0);
    }
  }

  /** One worker too many, and the `as u16` cast gives worker 65536 the range of
      worker 0. */
  lemma OneTooMany(workers: nat)
    requires workers > ID_SPACE
    ensures IdAt(workers, 0, 0) == IdAt(workers, ID_SPACE, 0)
  {
    ModUnique(ID_SPACE, workers, 0, ID_SPACE);
    ModUnique(0, workers, 0, 0);
    assert Span(workers) == 1;
  }

  ghost predicate Disjoint(workers: nat) {
    forall w1: nat, w2: nat, c1: nat, c2: nat ::
      w1 < w2 < workers ==> IdAt(workers, w1, c1) != IdAt(workers, w2, c2)
  }

  /** Disjointness holds exactly up to 65536 workers. */
  lemma DisjointIff(workers: nat)
    requires workers >= 1
    ensures Disjoint(workers) <==> workers <= ID_SPACE
  {
    if workers <= ID_SPACE {
      forall w1: nat, w2: nat, c1: nat, c2: nat | w1 < w2 < workers
        ensures IdAt(workers, w1, c1) != IdAt(workers, w2, c2)
      {
        RangesDisjoint(workers, w1, w2, c1, c2);
      }
    } else {
      OneTooMany(workers);
    }
  }
}
