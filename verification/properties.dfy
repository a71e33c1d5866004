/**
 What `save_checkpoint` guarantees: the manifest stays within `max_keep`
 entries, most recent first and without duplicates; the files it drops are
 unlinked and nothing else is touched; the files it lists exist; and
 `load_best_checkpoint` returns the state of the last save flagged best,
 whatever the rotation deletes.
 */
module StoreProperties {
  import opened Manifest
  import opened CheckpointStore

  predicate NoDuplicates(names: seq<string>) {
    forall i, j :: 0 <= i < j < |names| ==> names[i] != names[j]
  }

  /** The list the save truncates: the previous manifest, with the saved
      name in front when it was not listed. */
  function Candidates<S>(d: Dir<S>, name: string): seq<string> {
    WithSaved(Listed(d), name)
  }

  /** The manifest after a save lists the first `maxKeep` candidates: at most
      `maxKeep` names, a prefix of the candidate list, so the most recent
      first order is kept. */
  lemma {:induction false} SaveManifest<S>(d: Dir<S>, state: S, name: string, isBest: bool, maxKeep: int)
    requires WellFormed(d) && IsCheckpointName(name) && maxKeep >= 1
    ensures var listed := Listed(Save(d, state, name, isBest, maxKeep));
      && listed == Kept(Candidates(d, name), maxKeep)
      && |listed| <= maxKeep
      && listed <= Candidates(d, name)
  {
    SaveWellFormed(d, state, name, isBest, maxKeep);
  }

  /** A name not in the previous list heads the candidates and is kept. */
  lemma {:induction false} FreshKept(previous: seq<string>, name: string, maxKeep: int)
    requires maxKeep >= 1 && name !in previous
    ensures var c := WithSaved(previous, name);
      && Kept(c, maxKeep) != [] && Kept(c, maxKeep)[0] == name
      && Kept(c, maxKeep)[1..] <= previous
      && name !in Dropped(c, maxKeep)
  {
    var c := WithSaved(previous, name);
    assert c == [name] + previous;
    var kept, dropped := Kept(c, maxKeep), Dropped(c, maxKeep);
    assert kept[0] == c[0];
    assert kept[1..] <= c[1..];
  }

  /** A name the manifest did not list becomes its first entry, ahead of the
      previous entries in their order, and its snapshot is on disk. */
  lemma {:induction false} FreshNameGoesFirst<S>(d: Dir<S>, state: S, name: string, isBest: bool, maxKeep: int)
    requires WellFormed(d) && IsCheckpointName(name) && maxKeep >= 1
    requires name !in Listed(d)
    ensures var r := Save(d, state, name, isBest, maxKeep);
      && Listed(r) != [] && Listed(r)[0] == name && Listed(r)[1..] <= Listed(d)
      && name in r && r[name] == Snapshot(state)
  {
    SaveManifest(d, state, name, isBest, maxKeep);
    FreshKept(Listed(d), name, maxKeep);
    SaveGet(d, state, name, isBest, maxKeep, name);
  }

  /** A name the manifest already lists is not moved to the front and not
      added twice: the manifest becomes the previous one, truncated. */
  lemma {:induction false} ListedNameKeepsPosition<S>(d: Dir<S>, state: S, name: string, isBest: bool, maxKeep: int)
    requires WellFormed(d) && IsCheckpointName(name) && maxKeep >= 1
    requires name in Listed(d)
    ensures Listed(Save(d, state, name, isBest, maxKeep)) == Kept(Listed(d), maxKeep)
  {
    SaveManifest(d, state, name, isBest, maxKeep);
  }

  /** Consequence of the rule above: re-saving a name listed at position
      `maxKeep` or later unlinks the file that was just written, and the
      manifest no longer lists it. */
  lemma {:induction false} ReSavedPastWindowIsDeleted<S>(d: Dir<S>, state: S, name: string, isBest: bool, maxKeep: int, i: int)
    requires WellFormed(d) && IsCheckpointName(name) && maxKeep >= 1
    requires NoDuplicates(Listed(d))
    requires maxKeep <= i < |Listed(d)| && Listed(d)[i] == name
    ensures var r := Save(d, state, name, isBest, maxKeep);
      name !in r && name !in Listed(r)
  {
    assert Candidates(d, name) == Listed(d);
    PastWindowDropped(Listed(d), maxKeep, i);
    SaveGet(d, state, name, isBest, maxKeep, name);
    SaveManifest(d, state, name, isBest, maxKeep);
  }

  /** An entry at position `maxKeep` or later of a list without duplicates
      is dropped and not kept. */
  lemma {:induction false} PastWindowDropped(c: seq<string>, maxKeep: int, i: int)
    requires maxKeep >= 1 && NoDuplicates(c) && maxKeep <= i < |c|
    ensures c[i] in Dropped(c, maxKeep) && c[i] !in Kept(c, maxKeep)
  {
    assert Dropped(c, maxKeep)[i - maxKeep] == c[i];
    KeptNotDropped(c, maxKeep);
  }

  /** Pruning, one name at a time: a named file is gone, any other is as it was. */
  lemma {:induction false} PruneGet<S>(d: Dir<S>, names: seq<string>, n: string)
    ensures Get(Prune(d, names), n) == if n in names then None else Get(d, n)
  {
    if names != [] {
      var d' := if names[0] in d then d - {names[0]} else d;
      PruneGet(d', names[1..], n);
      assert n in names <==> n == names[0] || n in names[1..];
    }
  }

  /** Every file of the directory after a save, in terms of the directory
      before it: the manifest holds the kept names joined by "\n"; a dropped
      name is gone; the snapshot, and `best.ckpt` when flagged, hold the new
      state; any other file is as it was. */
  lemma {:induction false} SaveGet<S>(d: Dir<S>, state: S, name: string, isBest: bool, maxKeep: int, n: string)
    requires IsCheckpointName(name) && maxKeep >= 1
    ensures var candidates := Candidates(d, name);
      Get(Save(d, state, name, isBest, maxKeep), n)
        == if n == ManifestName then Some(Text(Join(Kept(candidates, maxKeep))))
           else if n in Dropped(candidates, maxKeep) then None
           else if n == name || (isBest && n == BestName) then Some(Snapshot(state))
           else Get(d, n)
  {
    var w := Write(d, state, name, isBest);
    var touched := Touch(w);
    ListedAfterWrite(d, state, name, isBest);
    var candidates := WithSaved(Listed(touched), name);
    var dropped := Dropped(candidates, maxKeep);
    var pruned := Prune(touched, dropped);
    SaveUnfold(d, state, name, isBest, maxKeep, touched, candidates, pruned);
    if n != ManifestName {
      PruneGet(touched, dropped, n);
      TouchKeepsListing(w);
      assert Get(touched, n) == Get(w, n);
    }
  }

  /** Every file named past `maxKeep` in the candidate list is gone after
      the save; a name listed but already missing is skipped, not an error. */
  lemma {:induction false} SaveDeletesDropped<S>(d: Dir<S>, state: S, name: string, isBest: bool, maxKeep: int)
    requires IsCheckpointName(name) && maxKeep >= 1
    ensures forall n :: n in Dropped(Candidates(d, name), maxKeep) && n != ManifestName ==>
              n !in Save(d, state, name, isBest, maxKeep)
  {
    forall n | n in Dropped(Candidates(d, name), maxKeep) && n != ManifestName
      ensures n !in Save(d, state, name, isBest, maxKeep)
    {
      SaveGet(d, state, name, isBest, maxKeep, n);
    }
  }

  /** Nothing else changes: a file other than the snapshot, `best.ckpt` when
      flagged, the manifest and the dropped files is exactly as before. */
  lemma {:induction false} SaveFrame<S>(d: Dir<S>, state: S, name: string, isBest: bool, maxKeep: int)
    requires IsCheckpointName(name) && maxKeep >= 1
    ensures forall n :: n != name && n != ManifestName && !(isBest && n == BestName)
                        && n !in Dropped(Candidates(d, name), maxKeep) ==>
              Get(Save(d, state, name, isBest, maxKeep), n) == Get(d, n)
  {
    forall n | n != name && n != ManifestName && !(isBest && n == BestName)
               && n !in Dropped(Candidates(d, name), maxKeep)
      ensures Get(Save(d, state, name, isBest, maxKeep), n) == Get(d, n)
    {
      SaveGet(d, state, name, isBest, maxKeep, n);
    }
  }

  /** Each candidate is the saved name or a name the manifest listed. */
  lemma {:induction false} CandidatesFrom(previous: seq<string>, name: string, maxKeep: int)
    requires maxKeep >= 1
    ensures forall e :: e in Dropped(WithSaved(previous, name), maxKeep) ==> e == name || e in previous
  {
    var c := WithSaved(previous, name);
    var dropped := Dropped(c, maxKeep);
    forall e | e in dropped ensures e == name || e in previous {
      var j :| 0 <= j < |dropped| && dropped[j] == e;
      assert c[|Kept(c, maxKeep)| + j] == e;
    }
  }

  /** The rotation never unlinks `best.ckpt`: a well-formed manifest does not
      list it, and it is not a checkpoint name. */
  lemma {:induction false} BestNeverDropped<S>(d: Dir<S>, name: string, maxKeep: int)
    requires WellFormed(d) && IsCheckpointName(name) && maxKeep >= 1
    ensures BestName !in Dropped(Candidates(d, name), maxKeep)
  {
    ListedAreCheckpointNames(d);
    CandidatesFrom(Listed(d), name, maxKeep);
  }

  /** `load_best_checkpoint` after a save: the saved state when it was
      flagged best, otherwise whatever `best.ckpt` held before. */
  lemma {:induction false} SaveThenLoadBest<S>(d: Dir<S>, state: S, name: string, isBest: bool, maxKeep: int)
    requires WellFormed(d) && IsCheckpointName(name) && maxKeep >= 1
    ensures WellFormed(Save(d, state, name, isBest, maxKeep))
    ensures LoadBest(Save(d, state, name, isBest, maxKeep)) == if isBest then Some(state) else LoadBest(d)
  {
    SaveWellFormed(d, state, name, isBest, maxKeep);
    BestNeverDropped(d, name, maxKeep);
    SaveGet(d, state, name, isBest, maxKeep, BestName);
  }

  /** No duplicate enters the manifest. */
  lemma {:induction false} CandidatesHaveNoDuplicates(previous: seq<string>, name: string)
    requires NoDuplicates(previous)
    ensures NoDuplicates(WithSaved(previous, name))
  {
    if name !in previous {
      var c := [name] + previous;
      forall i, j | 0 <= i < j < |c| ensures c[i] != c[j] {
        if i == 0 {
          assert c[j] == previous[j - 1];
        } else {
          assert c[i] == previous[i - 1] && c[j] == previous[j - 1];
        }
      }
    }
  }

  /** In a list without duplicates, no kept name is also dropped. */
  lemma {:induction false} KeptNotDropped(c: seq<string>, maxKeep: int)
    requires maxKeep >= 1 && NoDuplicates(c)
    ensures forall e :: e in Kept(c, maxKeep) ==> e !in Dropped(c, maxKeep)
  {
    var kept, dropped := Kept(c, maxKeep), Dropped(c, maxKeep);
    forall e | e in kept ensures e !in dropped {
      var i :| 0 <= i < |kept| && kept[i] == e;
      assert c[i] == e;
    }
  }

  /** Each kept name is the saved name or a name the manifest listed. */
  lemma {:induction false} KeptFrom(previous: seq<string>, name: string, maxKeep: int)
    requires maxKeep >= 1
    ensures forall e :: e in Kept(WithSaved(previous, name), maxKeep) ==> e == name || e in previous
  {
    var c := WithSaved(previous, name);
    var kept := Kept(c, maxKeep);
    forall e | e in kept ensures e == name || e in previous {
      var i :| 0 <= i < |kept| && kept[i] == e;
      assert c[i] == e;
    }
  }

  /** Retention: when the previous manifest holds no duplicate and every file
      it lists exists, the same holds after the save. */
  lemma {:induction false} SaveRetainsListed<S>(d: Dir<S>, state: S, name: string, isBest: bool, maxKeep: int)
    requires WellFormed(d) && IsCheckpointName(name) && maxKeep >= 1
    requires NoDuplicates(Listed(d))
    requires forall e :: e in Listed(d) ==> e in d
    ensures var r := Save(d, state, name, isBest, maxKeep);
      && NoDuplicates(Listed(r))
      && (forall e :: e in Listed(r) ==> e in r)
  {
    var candidates := Candidates(d, name);
    SaveManifest(d, state, name, isBest, maxKeep);
    CandidatesHaveNoDuplicates(Listed(d), name);
    forall e | e in Kept(candidates, maxKeep) ensures e in Save(d, state, name, isBest, maxKeep) {
      KeptExists(d, state, name, isBest, maxKeep, e);
    }
  }

  /** A kept name names a file after the save. */
  lemma {:induction false} KeptExists<S>(d: Dir<S>, state: S, name: string, isBest: bool, maxKeep: int, e: string)
    requires WellFormed(d) && IsCheckpointName(name) && maxKeep >= 1
    requires NoDuplicates(Listed(d))
    requires forall e :: e in Listed(d) ==> e in d
    requires e in Kept(Candidates(d, name), maxKeep)
    ensures e in Save(d, state, name, isBest, maxKeep)
  {
    var candidates := Candidates(d, name);
    CandidatesHaveNoDuplicates(Listed(d), name);
    KeptNotDropped(candidates, maxKeep);
    KeptFrom(Listed(d), name, maxKeep);
    ListedAreCheckpointNames(d);
    assert e != ManifestName && e !in Dropped(candidates, maxKeep);
    SaveGet(d, state, name, isBest, maxKeep, e);
  }

  /** The store's invariant between saves with a fixed `maxKeep`. */
  predicate Retained<S>(d: Dir<S>, maxKeep: int) {
    && WellFormed(d)
    && NoDuplicates(Listed(d))
    && |Listed(d)| <= maxKeep
    && (forall e :: e in Listed(d) ==> e in d)
  }

  /** A save with the same `maxKeep` keeps the invariant. */
  lemma {:induction false} SavePreservesRetained<S>(d: Dir<S>, state: S, name: string, isBest: bool, maxKeep: int)
    requires IsCheckpointName(name) && maxKeep >= 1
    requires Retained(d, maxKeep)
    ensures Retained(Save(d, state, name, isBest, maxKeep), maxKeep)
  {
    SaveWellFormed(d, state, name, isBest, maxKeep);
    SaveManifest(d, state, name, isBest, maxKeep);
    SaveRetainsListed(d, state, name, isBest, maxKeep);
  }

  /** One call of `save_checkpoint` in a run. */
  datatype SaveCall<S> = SaveCall(state: S, name: string, isBest: bool)

  /** A run of saves, one after the other, with the same `maxKeep`. */
  function SaveAll<S>(d: Dir<S>, calls: seq<SaveCall<S>>, maxKeep: int): (r: Dir<S>)
    requires maxKeep >= 1
    requires forall i :: 0 <= i < |calls| ==> IsCheckpointName(calls[i].name)
    ensures calls != [] ==> ManifestName in r
    decreases |calls|
  {
    if calls == [] then d
    else SaveAll(Save(d, calls[0].state, calls[0].name, calls[0].isBest, maxKeep), calls[1..], maxKeep)
  }

  /** The state of the last call flagged best, or `fallback` when none is. */
  function LastBest<S>(calls: seq<SaveCall<S>>, fallback: Option<S>): Option<S> {
    if calls == [] then fallback
    else LastBest(calls[1..], if calls[0].isBest then Some(calls[0].state) else fallback)
  }

  /** After every run of saves from a directory that keeps the invariant
      (an empty one does), the manifest has at most `maxKeep` distinct
      entries and each of them exists. */
  lemma {:induction false} SaveAllRetained<S>(d: Dir<S>, calls: seq<SaveCall<S>>, maxKeep: int)
    requires maxKeep >= 1
    requires forall i :: 0 <= i < |calls| ==> IsCheckpointName(calls[i].name)
    requires Retained(d, maxKeep)
    ensures Retained(SaveAll(d, calls, maxKeep), maxKeep)
    decreases |calls|
  {
    if calls != [] {
      var c := calls[0];
      assert IsCheckpointName(c.name);
      var d' := Save(d, c.state, c.name, c.isBest, maxKeep);
      SavePreservesRetained(d, c.state, c.name, c.isBest, maxKeep);
      assert forall i :: 0 <= i < |calls[1..]| ==> IsCheckpointName(calls[1..][i].name) by {
        forall i | 0 <= i < |calls[1..]| ensures IsCheckpointName(calls[1..][i].name) {
          assert calls[1..][i] == calls[i + 1];
        }
      }
      SaveAllRetained(d', calls[1..], maxKeep);
    }
  }

  /** An empty directory keeps the invariant. */
  lemma {:induction false} EmptyRetained<S>(maxKeep: int)
    requires maxKeep >= 0
    ensures Retained<S>(map[], maxKeep)
  {
  }

  /** `load_best_checkpoint` after a run of saves returns the state of the
      last save flagged best, however many snapshots the rotation deleted;
      without such a save it returns what it returned before the run. */
  lemma {:induction false} SaveAllLoadsLastBest<S>(d: Dir<S>, calls: seq<SaveCall<S>>, maxKeep: int)
    requires maxKeep >= 1
    requires forall i :: 0 <= i < |calls| ==> IsCheckpointName(calls[i].name)
    requires WellFormed(d)
    ensures WellFormed(SaveAll(d, calls, maxKeep))
    ensures LoadBest(SaveAll(d, calls, maxKeep)) == LastBest(calls, LoadBest(d))
    decreases |calls|
  {
    if calls != [] {
      var c := calls[0];
      var d' := Save(d, c.state, c.name, c.isBest, maxKeep);
      SaveThenLoadBest(d, c.state, c.name, c.isBest, maxKeep);
      SaveAllLoadsLastBest(d', calls[1..], maxKeep);
    }
  }
}
