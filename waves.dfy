/** The deterrent sound waves: each grows by WaveGrowth per tick and is
    dropped once its radius exceeds OceanWidth. */
module Waves {
  import opened Constants

  datatype Wave = Wave(radius: real, center: (real, real))

  /** The growth loop of move_all: every wave's radius grows by WaveGrowth;
      centres and order stay. */
  function Grow(ws: seq<Wave>): (r: seq<Wave>)
    ensures |r| == |ws|
    ensures forall i :: 0 <= i < |ws| ==> r[i].radius == ws[i].radius + WaveGrowth && r[i].center == ws[i].center
  {
    seq(|ws|, i requires 0 <= i < |ws| => ws[i].(radius := ws[i].radius + WaveGrowth))
  }

  /** The pruning filter of move_all: keeps, in order, the waves whose radius
      is at most OceanWidth. */
  function Prune(ws: seq<Wave>): (r: seq<Wave>)
    ensures |r| <= |ws|
    ensures forall w :: w in r ==> w in ws && w.radius <= OceanWidth
    ensures forall w :: w in ws && w.radius <= OceanWidth ==> w in r
  {
    if ws == [] then []
    else
      var last := ws[|ws| - 1];
      assert ws == ws[..|ws| - 1] + [last];
      Prune(ws[..|ws| - 1]) + (if last.radius <= OceanWidth then [last] else [])
  }

  /** Pruning works wave by wave, so survivors keep their relative order. */
  lemma {:induction false} PruneAppend(a: seq<Wave>, b: seq<Wave>)
    ensures Prune(a + b) == Prune(a) + Prune(b)
    decreases |b|
  {
    if b != [] {
      var init, last := b[..|b| - 1], b[|b| - 1];
      assert (a + b)[..|a + b| - 1] == a + init;
      PruneAppend(a, init);
    } else {
      assert a + b == a;
    }
  }

  /** Waves that are all within OceanWidth are all kept, unchanged. */
  lemma {:induction false} PruneKeepsSmall(ws: seq<Wave>)
    requires forall i :: 0 <= i < |ws| ==> ws[i].radius <= OceanWidth
    ensures Prune(ws) == ws
  {
    if ws != [] {
      var init := ws[..|ws| - 1];
      PruneKeepsSmall(init);
      assert ws == init + [ws[|ws| - 1]];
    }
  }
}
