/**
 The checkpoint store of a training run (`save_checkpoint`,
 `get_previous_checkpoints` and `load_best_checkpoint`): one directory holding
 state snapshots, the manifest `latest_checkpoint` that lists the retained
 snapshots most recent first, and a copy of the best snapshot in `best.ckpt`.

 A directory is a map from file names to files. The specification functions below give
 the directory after each step of a save; the class `CheckpointDir` runs the
 same steps in place and is proved to end in the state `Save` describes.
 */
module CheckpointStore {
  import opened Manifest

  datatype Option<T> = None | Some(value: T)

  /** A file of the directory: a serialized state dictionary (written by
      `torch.save`, opaque here) or a text file (the manifest). */
  datatype File<S> = Snapshot(state: S) | Text(text: string)

  type Dir<S> = map<string, File<S>>

  const ManifestName: string := "latest_checkpoint"
  const BestName: string := "best.ckpt"

  /** A name that denotes a plain file of the directory itself: not empty,
      not `.` or `..`, no path separator. */
  predicate IsFileName(n: string) {
    n != "" && n != "." && n != ".." && '/' !in n
  }

  /** A file name other than the two the store reserves. */
  predicate IsStoredName(n: string) {
    IsFileName(n) && n != ManifestName && n != BestName
  }

  /** A snapshot name the store records faithfully: a file name that the
      manifest reads back unchanged and that is neither of the two fixed names. */
  predicate IsCheckpointName(n: string) {
    IsStoredName(n) && IsEntry(n)
  }

  /** The shape every directory the store produces has: the manifest is text
      listing snapshot names, every other file is a snapshot. */
  predicate WellFormed<S>(d: Dir<S>) {
    && (forall n :: n in d ==> IsFileName(n))
    && (forall n :: n in d && n != ManifestName ==> d[n].Snapshot?)
    && (ManifestName in d ==>
          d[ManifestName].Text? && forall e :: e in Decode(d[ManifestName].text) ==> IsStoredName(e))
  }

  function Get<S>(d: Dir<S>, n: string): Option<File<S>> {
    if n in d then Some(d[n]) else None
  }

  function ManifestText<S>(d: Dir<S>): string {
    if ManifestName in d && d[ManifestName].Text? then d[ManifestName].text else ""
  }

  /** The names the manifest lists; a missing manifest lists nothing. */
  function Listed<S>(d: Dir<S>): (names: seq<string>)
    ensures ManifestName !in d ==> names == []
  {
    Decode(ManifestText(d))
  }

  /** `list_path.touch(exist_ok=True)`: an empty manifest appears when there is none. */
  function Touch<S>(d: Dir<S>): (t: Dir<S>)
    ensures ManifestName in t
    ensures ManifestName in d ==> t == d
  {
    if ManifestName in d then d else d[ManifestName := Text("")]
  }

  /** Touching creates the manifest if needed and changes neither what it
      lists nor any other file. */
  lemma {:induction false} TouchKeepsListing<S>(d: Dir<S>)
    ensures ManifestName in Touch(d) && Listed(Touch(d)) == Listed(d)
    ensures forall n :: n != ManifestName ==> Get(Touch(d), n) == Get(d, n)
    ensures WellFormed(d) ==> WellFormed(Touch(d))
  {
    if ManifestName !in d {
      DecodeEmpty();
      assert ManifestText(Touch(d)) == "";
    }
  }

  /** The two `torch.save` calls: the snapshot under its own name and, when
      flagged, the same state under `best.ckpt`. */
  function Write<S>(d: Dir<S>, state: S, name: string, isBest: bool): (w: Dir<S>)
    ensures name in w && w[name] == Snapshot(state)
    ensures isBest ==> BestName in w && w[BestName] == Snapshot(state)
  {
    var d' := d[name := Snapshot(state)];
    if isBest then d'[BestName := Snapshot(state)] else d'
  }

  /** Every file after the two writes: the snapshot, and `best.ckpt` when
      flagged, hold the new state; any other file is as it was. */
  lemma {:induction false} WriteGet<S>(d: Dir<S>, state: S, name: string, isBest: bool, n: string)
    ensures Get(Write(d, state, name, isBest), n)
      == if n == name || (isBest && n == BestName) then Some(Snapshot(state)) else Get(d, n)
  {
  }

  /** The list before truncation: the saved name goes in front only when it
      is listed nowhere yet. */
  function WithSaved(previous: seq<string>, name: string): (saved: seq<string>)
    ensures name in saved
    ensures |previous| <= |saved| <= |previous| + 1 && saved[|saved| - |previous|..] == previous
  {
    if name in previous then previous else [name] + previous
  }

  /** Line 57 both ways: the list grows exactly when the name is listed
      nowhere yet, and then the name goes in front. */
  lemma {:induction false} WithSavedGrows(previous: seq<string>, name: string)
    ensures |WithSaved(previous, name)| == |previous| <==> name in previous
    ensures name !in previous ==> WithSaved(previous, name)[0] == name
  {
  }

  /** `candidates[:max_keep]`: a prefix, at most `maxKeep` long, the whole
      list when it fits. */
  function Kept(candidates: seq<string>, maxKeep: int): (kept: seq<string>)
    requires maxKeep >= 1
    ensures kept <= candidates && |kept| <= maxKeep
    ensures |candidates| <= maxKeep ==> kept == candidates
    ensures |candidates| > maxKeep ==> |kept| == maxKeep
  {
    if |candidates| > maxKeep then candidates[..maxKeep] else candidates
  }

  /** The entries the loop visits: `candidates[max_keep:]` when the list is
      too long, nothing otherwise. Kept and dropped entries make up the list. */
  function Dropped(candidates: seq<string>, maxKeep: int): (dropped: seq<string>)
    requires maxKeep >= 1
    ensures Kept(candidates, maxKeep) + dropped == candidates
  {
    if |candidates| > maxKeep then candidates[maxKeep..] else []
  }

  /** The loop at lines 60-63: unlinking, in order, each named file that
      exists. It only removes files: what remains is as it was. */
  function Prune<S>(d: Dir<S>, names: seq<string>): (r: Dir<S>)
    ensures forall n :: n in r ==> n in d && r[n] == d[n]
  {
    if names == [] then d
    else
      var d' := if names[0] in d then d - {names[0]} else d;
      Prune(d', names[1..])
  }

  /** Pruning removes exactly the named files; every other file keeps its contents. */
  lemma {:induction false} PruneRemovesExactly<S>(d: Dir<S>, names: seq<string>)
    ensures forall n :: n in Prune(d, names) <==> n in d && n !in names
    ensures forall n :: n in Prune(d, names) ==> Prune(d, names)[n] == d[n]
  {
    if names != [] {
      var d' := if names[0] in d then d - {names[0]} else d;
      PruneRemovesExactly(d', names[1..]);
      assert forall n :: n in names <==> n == names[0] || n in names[1..];
    }
  }

  /** One turn of the loop: unlinking the `i`-th name, if it exists, leaves
      the rest of the names to prune. */
  lemma {:induction false} PruneStepAt<S>(d: Dir<S>, names: seq<string>, i: int)
    requires 0 <= i < |names|
    ensures Prune(d, names[i..]) == Prune(if names[i] in d then d - {names[i]} else d, names[i + 1..])
  {
    assert names[i..][0] == names[i] && names[i..][1..] == names[i + 1..];
  }

  /** The directory after `save_checkpoint(state, dir / name, isBest, maxKeep)`. */
  function Save<S>(d: Dir<S>, state: S, name: string, isBest: bool, maxKeep: int): (r: Dir<S>)
    requires IsCheckpointName(name) && maxKeep >= 1
    ensures ManifestName in r && r[ManifestName].Text?
  {
    var touched := Touch(Write(d, state, name, isBest));
    var candidates := WithSaved(Listed(touched), name);
    var pruned := Prune(touched, Dropped(candidates, maxKeep));
    pruned[ManifestName := Text(Join(Kept(candidates, maxKeep)))]
  }

  /** `load_best_checkpoint`: the state in `best.ckpt`, or `None` without one. */
  function LoadBest<S>(d: Dir<S>): (r: Option<S>)
    requires WellFormed(d)
    ensures r.Some? <==> BestName in d
    ensures r.Some? ==> d[BestName] == Snapshot(r.value)
  {
    if BestName in d then Some(d[BestName].state) else None
  }

  /** Writing the snapshots leaves the manifest as it was. */
  lemma {:induction false} ListedAfterWrite<S>(d: Dir<S>, state: S, name: string, isBest: bool)
    requires IsCheckpointName(name)
    ensures Listed(Touch(Write(d, state, name, isBest))) == Listed(d)
  {
    assert ManifestText(Write(d, state, name, isBest)) == ManifestText(d);
    TouchKeepsListing(Write(d, state, name, isBest));
  }

  /** Save, with the list it reads stated in terms of the directory before the call. */
  lemma {:induction false} SaveSteps<S>(d: Dir<S>, state: S, name: string, isBest: bool, maxKeep: int)
    requires IsCheckpointName(name) && maxKeep >= 1
    ensures var candidates := WithSaved(Listed(d), name);
      Save(d, state, name, isBest, maxKeep)
        == Prune(Touch(Write(d, state, name, isBest)), Dropped(candidates, maxKeep))
             [ManifestName := Text(Join(Kept(candidates, maxKeep)))]
  {
    ListedAfterWrite(d, state, name, isBest);
  }

  /** Save, step by step, with each intermediate directory and list given by
      the caller. `SaveSteps` reads the list from the directory before the
      call; this form is for callers that already hold the intermediate
      values as variables, such as the in-place `SaveCheckpoint`. */
  lemma {:induction false} SaveUnfold<S>(d: Dir<S>, state: S, name: string, isBest: bool, maxKeep: int,
                      touched: Dir<S>, candidates: seq<string>, pruned: Dir<S>)
    requires IsCheckpointName(name) && maxKeep >= 1
    requires touched == Touch(Write(d, state, name, isBest))
    requires candidates == WithSaved(Listed(touched), name)
    requires pruned == Prune(touched, Dropped(candidates, maxKeep))
    ensures Save(d, state, name, isBest, maxKeep)
              == pruned[ManifestName := Text(Join(Kept(candidates, maxKeep)))]
  {
  }

  /** Writing snapshots under checkpoint names keeps a directory well formed. */
  lemma {:induction false} WriteWellFormed<S>(d: Dir<S>, state: S, name: string, isBest: bool)
    requires WellFormed(d) && IsCheckpointName(name)
    ensures WellFormed(Write(d, state, name, isBest))
  {
    var w := Write(d, state, name, isBest);
    assert ManifestName in w ==> w[ManifestName] == d[ManifestName];
  }

  /** The names a well-formed manifest lists are checkpoint names. */
  lemma {:induction false} ListedAreCheckpointNames<S>(d: Dir<S>)
    requires WellFormed(d)
    ensures forall e :: e in Listed(d) ==> IsCheckpointName(e)
  {
  }

  /** Every name of the kept list is a checkpoint name when the previous list
      and the saved name are. */
  lemma {:induction false} KeptAreCheckpointNames(previous: seq<string>, name: string, maxKeep: int)
    requires maxKeep >= 1 && IsCheckpointName(name)
    requires forall e :: e in previous ==> IsCheckpointName(e)
    ensures forall i :: 0 <= i < |Kept(WithSaved(previous, name), maxKeep)| ==>
              IsCheckpointName(Kept(WithSaved(previous, name), maxKeep)[i])
  {
    var candidates := WithSaved(previous, name);
    var kept := Kept(candidates, maxKeep);
    forall i | 0 <= i < |kept| ensures IsCheckpointName(kept[i]) {
      assert kept[i] == candidates[i];
      assert candidates[i] == name || candidates[i] in previous;
    }
  }

  /** Writing a text that lists stored names as the manifest leaves a
      well-formed directory that lists those names. */
  lemma {:induction false} ManifestRewrite<S>(d: Dir<S>, text: string, names: seq<string>)
    requires forall n :: n in d ==> IsFileName(n)
    requires forall n :: n in d && n != ManifestName ==> d[n].Snapshot?
    requires Decode(text) == names
    requires forall e :: e in names ==> IsStoredName(e)
    ensures var r := d[ManifestName := Text(text)];
      WellFormed(r) && Listed(r) == names
  {
    var r := d[ManifestName := Text(text)];
    RewriteKeepsFiles(d, text);
    assert ManifestText(r) == text;
  }

  /** Rewriting the manifest leaves every other file as it was. */
  lemma {:induction false} RewriteKeepsFiles<S>(d: Dir<S>, text: string)
    requires forall n :: n in d ==> IsFileName(n)
    requires forall n :: n in d && n != ManifestName ==> d[n].Snapshot?
    ensures var r := d[ManifestName := Text(text)];
      && (forall n :: n in r ==> IsFileName(n))
      && (forall n :: n in r && n != ManifestName ==> r[n].Snapshot?)
  {
    assert IsFileName(ManifestName);
  }

  /** Rewriting the manifest with a list of checkpoint names leaves a
      well-formed directory whose manifest reads back as that list. */
  lemma {:induction false} RewriteWellFormed<S>(d: Dir<S>, names: seq<string>)
    requires forall n :: n in d ==> IsFileName(n)
    requires forall n :: n in d && n != ManifestName ==> d[n].Snapshot?
    requires forall i :: 0 <= i < |names| ==> IsCheckpointName(names[i])
    ensures var r := d[ManifestName := Text(Join(names))];
      WellFormed(r) && Listed(r) == names
  {
    CheckpointNamesSplit(names);
    DecodeJoin(names);
    ManifestRewrite(d, Join(names), names);
  }

  /** A list of checkpoint names is a list of stored names that read back. */
  lemma {:induction false} CheckpointNamesSplit(names: seq<string>)
    requires forall i :: 0 <= i < |names| ==> IsCheckpointName(names[i])
    ensures forall i :: 0 <= i < |names| ==> IsEntry(names[i])
    ensures forall e :: e in names ==> IsStoredName(e)
  {
    forall e | e in names ensures IsStoredName(e) {
      var i :| 0 <= i < |names| && names[i] == e;
    }
  }

  /** A save keeps the directory well formed, and its manifest reads back as
      the kept prefix of the candidate list. */
  lemma {:induction false} SaveWellFormed<S>(d: Dir<S>, state: S, name: string, isBest: bool, maxKeep: int)
    requires WellFormed(d) && IsCheckpointName(name) && maxKeep >= 1
    ensures var r := Save(d, state, name, isBest, maxKeep);
      WellFormed(r) && Listed(r) == Kept(WithSaved(Listed(d), name), maxKeep)
  {
    SaveSteps(d, state, name, isBest, maxKeep);
    var candidates := WithSaved(Listed(d), name);
    var kept := Kept(candidates, maxKeep);
    ListedAreCheckpointNames(d);
    KeptAreCheckpointNames(Listed(d), name, maxKeep);
    WriteWellFormed(d, state, name, isBest);
    var touched := Touch(Write(d, state, name, isBest));
    TouchKeepsListing(Write(d, state, name, isBest));
    var pruned := Prune(touched, Dropped(candidates, maxKeep));
    PruneRemovesExactly(touched, Dropped(candidates, maxKeep));
    assert forall n :: n in pruned ==> n in touched && pruned[n] == touched[n];
    RewriteWellFormed(pruned, kept);
  }

  /** The checkpoint directory, updated in place by the store's operations. */
  class CheckpointDir<S> {
    var files: Dir<S>

    ghost predicate Valid()
      reads this
    {
      WellFormed(files)
    }

    /** A freshly created, empty directory. */
    constructor ()
      ensures Valid() && files == map[]
    {
      files := map[];
    }

    /** `get_previous_checkpoints`: creates an empty manifest if there is
        none, then returns its lines, stripped. */
    method PreviousCheckpoints() returns (previous: seq<string>)
      requires Valid()
      modifies this
      ensures Valid()
      ensures files == Touch(old(files))
      ensures previous == Listed(old(files))
    {
      TouchKeepsListing(files);
      if ManifestName !in files {
        files := files[ManifestName := Text("")];
      }
      previous := Decode(files[ManifestName].text);
    }

    /** `save_checkpoint`: writes the snapshot (and `best.ckpt` when flagged),
        puts the name in front of the manifest list unless it is listed
        already, unlinks the files listed past `maxKeep` and rewrites the
        manifest with the first `maxKeep` names. */
    method SaveCheckpoint(state: S, name: string, isBest: bool, maxKeep: int)
      requires Valid() && IsCheckpointName(name) && maxKeep >= 1
      modifies this
      ensures Valid()
      ensures files == Save(old(files), state, name, isBest, maxKeep)
    {
      files := files[name := Snapshot(state)];
      if isBest {
        files := files[BestName := Snapshot(state)];
      }
      WriteWellFormed(old(files), state, name, isBest);
      ghost var written := files;
      var previous := PreviousCheckpoints();
      ghost var touched := files;
      TouchKeepsListing(written);
      if name !in previous {
        previous := [name] + previous;
      }
      ghost var candidates := previous;
      if |previous| > maxKeep {
        var dropped := previous[maxKeep..];
        for i := 0 to |dropped|
          invariant Prune(files, dropped[i..]) == Prune(touched, dropped)
        {
          PruneStepAt(files, dropped, i);
          if dropped[i] in files {
            files := files - {dropped[i]};
          }
        }
        assert dropped[|dropped|..] == [];
      }
      assert files == Prune(touched, Dropped(candidates, maxKeep));
      if |previous| > maxKeep {
        previous := previous[..maxKeep];
      }
      SaveUnfold(old(files), state, name, isBest, maxKeep, touched, candidates, files);
      files := files[ManifestName := Text(Join(previous))];
      SaveWellFormed(old(files), state, name, isBest, maxKeep);
    }

    /** `load_best_checkpoint`. */
    method LoadBestCheckpoint() returns (best: Option<S>)
      requires Valid()
      ensures best == LoadBest(files)
    {
      if BestName in files {
        best := Some(files[BestName].state);
      } else {
        best := None;
      }
    }
  }
}
