/**
 Concrete runs of the store, worked out from the general lemmas: a rotation
 with a window of two, a best snapshot that outlives its rotation, and a
 hand-edited manifest whose repeated line makes a save unlink a listed file.
 */
module StoreScenarios {
  import opened Manifest
  import opened CheckpointStore
  import opened StoreProperties

  /** The candidate lists of the two saves below. */
  lemma {:induction false} TwoNames(x: string, y: string)
    requires x != y
    ensures Kept(WithSaved([], x), 1) == [x]
    ensures WithSaved([x], y) == [y, x]
    ensures Kept([y, x], 1) == [y] && Dropped([y, x], 1) == [x]
  {
    assert y !in [x];
  }

  /** The candidate list of the save into a manifest that repeats a name. */
  lemma {:induction false} RepeatedNames(a: string, b: string)
    requires a != b
    ensures WithSaved([a, a], b) == [b, a, a]
    ensures Kept([b, a, a], 2) == [b, a] && Dropped([b, a, a], 2) == [a]
  {
    assert b !in [a, a];
  }

  /** The candidate lists of the first two saves of the rotation below. */
  lemma {:induction false} FirstTwoNames(a: string, b: string)
    requires a != b
    ensures Kept(WithSaved([], a), 2) == [a]
    ensures Kept(WithSaved([a], b), 2) == [b, a]
  {
    assert b !in [a];
  }

  /** The candidate lists of the last save of the rotation below. */
  lemma {:induction false} ThreeNames(a: string, b: string, c: string)
    requires a != b && b != c && a != c
    ensures WithSaved([b, a], c) == [c, b, a]
    ensures Kept([c, b, a], 2) == [c, b] && Dropped([c, b, a], 2) == [a]
  {
    assert c !in [b, a];
  }

  /** The first two saves of the rotation below. */
  lemma {:induction false} TwoSaves<S>(d0: Dir<S>, a: string, b: string, sa: S, sb: S)
    requires IsCheckpointName(a) && IsCheckpointName(b) && a != b
    requires WellFormed(d0) && ManifestName !in d0 && BestName !in d0
    ensures var d2 := Save(Save(d0, sa, a, false, 2), sb, b, false, 2);
      && WellFormed(d2) && Listed(d2) == [b, a]
      && Get(d2, b) == Some(Snapshot(sb)) && BestName !in d2
  {
    var d1 := Save(d0, sa, a, false, 2);
    FirstTwoNames(a, b);
    SaveWellFormed(d0, sa, a, false, 2);
    SaveWellFormed(d1, sb, b, false, 2);
    SaveGet(d0, sa, a, false, 2, BestName);
    SaveGet(d1, sb, b, false, 2, BestName);
    SaveGet(d1, sb, b, false, 2, b);
  }

  /** Three saves of distinct names `a`, `b`, `c`, none flagged best, with
      `maxKeep == 2`, into a directory with neither a manifest nor a
      `best.ckpt`: the manifest lists `c` then `b`, `a` is unlinked,
      `b` and `c` hold their states and no `best.ckpt` appears. */
  lemma {:induction false} RotationOfThree<S>(d0: Dir<S>, a: string, b: string, c: string, sa: S, sb: S, sc: S)
    requires IsCheckpointName(a) && IsCheckpointName(b) && IsCheckpointName(c)
    requires a != b && b != c && a != c
    requires WellFormed(d0) && ManifestName !in d0 && BestName !in d0
    ensures var d3 := Save(Save(Save(d0, sa, a, false, 2), sb, b, false, 2), sc, c, false, 2);
      && Listed(d3) == [c, b]
      && a !in d3 && BestName !in d3
      && Get(d3, b) == Some(Snapshot(sb)) && Get(d3, c) == Some(Snapshot(sc))
  {
    TwoSaves(d0, a, b, sa, sb);
    ThirdSave(Save(Save(d0, sa, a, false, 2), sb, b, false, 2), a, b, c, sb, sc);
  }

  /** The last save of the rotation above, from the directory the first two
      leave. */
  lemma {:induction false} ThirdSave<S>(d2: Dir<S>, a: string, b: string, c: string, sb: S, sc: S)
    requires IsCheckpointName(a) && IsCheckpointName(b) && IsCheckpointName(c)
    requires a != b && b != c && a != c
    requires WellFormed(d2) && Listed(d2) == [b, a]
    requires Get(d2, b) == Some(Snapshot(sb)) && BestName !in d2
    ensures var d3 := Save(d2, sc, c, false, 2);
      && Listed(d3) == [c, b]
      && a !in d3 && BestName !in d3
      && Get(d3, b) == Some(Snapshot(sb)) && Get(d3, c) == Some(Snapshot(sc))
  {
    ThreeNames(a, b, c);
    SaveWellFormed(d2, sc, c, false, 2);
    SaveGet(d2, sc, c, false, 2, a);
    SaveGet(d2, sc, c, false, 2, b);
    SaveGet(d2, sc, c, false, 2, c);
    SaveGet(d2, sc, c, false, 2, BestName);
  }

  /** `x` saved as best, then a different `y` saved not best, both with
      `maxKeep == 1`, into a directory without a manifest: the
      manifest lists only `y`, the file `x` is unlinked, and
      `load_best_checkpoint` still returns the state of `x`. */
  lemma {:induction false} BestOutlivesRotation<S>(d0: Dir<S>, x: string, y: string, sx: S, sy: S)
    requires IsCheckpointName(x) && IsCheckpointName(y) && x != y
    requires WellFormed(d0) && ManifestName !in d0
    ensures var d2 := Save(Save(d0, sx, x, true, 1), sy, y, false, 1);
      && WellFormed(d2) && Listed(d2) == [y]
      && x !in d2 && LoadBest(d2) == Some(sx)
  {
    var d1 := Save(d0, sx, x, true, 1);
    TwoNames(x, y);
    SaveThenLoadBest(d0, sx, x, true, 1);
    SaveWellFormed(d0, sx, x, true, 1);
    SaveThenLoadBest(d1, sy, y, false, 1);
    SaveWellFormed(d1, sy, y, false, 1);
    SaveGet(d1, sy, y, false, 1, x);
  }

  /** Without the no-duplicates condition retention fails: a manifest that
      lists `a` twice, saved into with another name `b` and `maxKeep == 2`,
      keeps `a` in the manifest while the loop unlinks its file. */
  lemma {:induction false} RepeatedLineLosesListedFile(a: string, b: string, sa: int, sb: int)
    requires IsCheckpointName(a) && IsCheckpointName(b) && a != b
    ensures var d := map[a := Snapshot(sa)][ManifestName := Text(Join([a, a]))];
      var r := Save(d, sb, b, false, 2);
      && WellFormed(d) && Listed(d) == [a, a]
      && Listed(r) == [b, a] && a !in r
  {
    var d0: Dir<int> := map[a := Snapshot(sa)];
    var d := d0[ManifestName := Text(Join([a, a]))];
    RewriteWellFormed(d0, [a, a]);
    RepeatedNames(a, b);
    SaveWellFormed(d, sb, b, false, 2);
    SaveGet(d, sb, b, false, 2, a);
  }
}
