/** The checkpoint directory and save_checkpoint's bounded retention: write
    the file for the new epoch, then list every '*.pkl' entry and delete each
    one whose name reads as an epoch more than one below the new one. */
module Checkpoints {
  import opened CheckpointNames

  /** Whether glob's "*.pkl" pattern lists a directory entry: the name ends
      in ".pkl" and is not hidden ('*' never matches a leading dot). */
  predicate IsPkl(name: string) {
    |name| >= 4 && name[|name| - 4..] == ".pkl" && name[0] != '.'
  }

  /** A listed entry whose path int() cannot read: save_checkpoint raises on it. */
  predicate Unreadable(dir: string, name: string) {
    IsPkl(name) && ParseEpoch(GlobPath(dir, name)).None?
  }

  /** A listed entry that saving `epoch` deletes: its path reads as a number
      strictly below epoch - 1. */
  predicate Stale(dir: string, name: string, epoch: int) {
    IsPkl(name) && ParseEpoch(GlobPath(dir, name)).Some? && ParseEpoch(GlobPath(dir, name)).value < epoch - 1
  }

  predicate AllReadable(dir: string, entries: set<string>) {
    forall name :: name in entries ==> !Unreadable(dir, name)
  }

  /** The entries left once the pruning pass of a save of `epoch` has run to
      the end. */
  function Retained(dir: string, entries: set<string>, epoch: int): set<string> {
    set name | name in entries && !Stale(dir, name, epoch)
  }

  /** The names written by saving epochs 0 .. n - 1. */
  function SavedUpTo(n: nat): set<string> {
    set k: nat | k < n :: CheckpointName(k)
  }

  /** A checkpoint file survives saving `epoch` exactly when its own epoch is
      epoch - 1 or later; in particular the file just written always stays. */
  lemma RetainedCheckpoint(dir: string, entries: set<string>, epoch: int, k: nat)
    requires CheckpointName(k) in entries
    ensures CheckpointName(k) in Retained(dir, entries, epoch) <==> k >= epoch - 1
  {
    ParseEpochOfCheckpoint(dir, k);
  }

  /** Saving epoch 0 (threshold -1) keeps every checkpoint file; it deletes
      only '.pkl' files whose path reads as a number below -1. */
  lemma EpochZeroKeepsCheckpoints(dir: string, entries: set<string>)
    ensures forall k: nat :: CheckpointName(k) in entries ==> CheckpointName(k) in Retained(dir, entries, 0)
    ensures (forall name :: name in entries && IsPkl(name) && ParseEpoch(GlobPath(dir, name)).Some? ==>
               ParseEpoch(GlobPath(dir, name)).value >= -1) ==>
            Retained(dir, entries, 0) == entries
  {
    forall k: nat | CheckpointName(k) in entries
      ensures CheckpointName(k) in Retained(dir, entries, 0)
    {
      RetainedCheckpoint(dir, entries, 0, k);
    }
  }

  /** A '.pkl' file without '_' in its name, in a directory whose path has no
      '.', cannot be read: the text handed to int() keeps the '/' before the
      file name. Saving any epoch into such a directory raises. */
  lemma StrayPklIsUnreadable(dir: string, name: string)
    requires IsPkl(name) && '_' !in name && '.' !in dir
    ensures Unreadable(dir, name)
  {
    var path := GlobPath(dir, name);
    var r := AfterLast(path, '_');
    AfterLastIsLastPart(path, '_');
    var j := |r| - |name| - 1;
    assert 0 <= j && r[j] == '/';
    assert forall i :: 0 <= i < j ==> r[i] == dir[|dir| - j + i];
    var b := BeforeFirst(r, '.');
    BeforeFirstIsFirstPart(r, '.');
    assert b[j] == '/';
    ParseIntRejectsSlash(b);
  }

  /** Every checkpoint name can be read back. */
  lemma SavedUpToReadable(dir: string, n: nat)
    ensures AllReadable(dir, SavedUpTo(n))
  {
    forall name | name in SavedUpTo(n)
      ensures !Unreadable(dir, name)
    {
      var k: nat :| k < n && name == CheckpointName(k);
      ParseEpochOfCheckpoint(dir, k);
    }
  }

  /** Pruning at a lower epoch and then at a higher one, with files added in
      between, leaves what one pruning at the higher epoch would. */
  lemma RetainedCompose(dir: string, entries: set<string>, added: set<string>, a: int, b: int)
    requires a <= b
    ensures Retained(dir, Retained(dir, entries, a) + added, b) == Retained(dir, entries + added, b)
  {
  }

  /** The files of the last two epochs of a run of n epochs. */
  function LastTwo(n: nat): (names: set<string>)
    requires n >= 1
    ensures CheckpointName(n - 1) in names && |names| <= 2
  {
    if n == 1 then {CheckpointName(0)} else {CheckpointName(n - 2), CheckpointName(n - 1)}
  }

  lemma FreshRunKept(dir: string, n: nat, name: string)
    requires n >= 1 && name in Retained(dir, SavedUpTo(n), n - 1)
    ensures name in LastTwo(n)
  {
    assert name in SavedUpTo(n);
    var k: nat :| k < n && name == CheckpointName(k);
    RetainedCheckpoint(dir, SavedUpTo(n), n - 1, k);
    assert k == n - 1 || k == n - 2;
  }

  lemma FreshRunKeeps(dir: string, n: nat, name: string)
    requires n >= 1 && name in LastTwo(n)
    ensures name in Retained(dir, SavedUpTo(n), n - 1)
  {
    var k: nat := if name == CheckpointName(n - 1) then n - 1 else n - 2;
    assert name == CheckpointName(k);
    assert name in SavedUpTo(n);
    RetainedCheckpoint(dir, SavedUpTo(n), n - 1, k);
  }

  /** The entries after save_checkpoint has run to the end for epochs
      0, 1, .., n - 1 in order, as the epoch loop calls it. */
  function AfterSaves(dir: string, entries: set<string>, n: nat): set<string> {
    if n == 0 then entries
    else Retained(dir, AfterSaves(dir, entries, n - 1) + {CheckpointName(n - 1)}, n - 1)
  }

  /** After n >= 1 saves, the directory is what one pruning at the last
      epoch makes of the starting entries plus every file written. */
  lemma {:induction false} AfterSavesClosedForm(dir: string, entries: set<string>, n: nat)
    requires n >= 1
    ensures AfterSaves(dir, entries, n) == Retained(dir, entries + SavedUpTo(n), n - 1)
  {
    if n == 1 {
      assert SavedUpTo(1) == {CheckpointName(0)};
    } else {
      AfterSavesClosedForm(dir, entries, n - 1);
      RetainedCompose(dir, entries + SavedUpTo(n - 1), {CheckpointName(n - 1)}, n - 2, n - 1);
      assert SavedUpTo(n) == SavedUpTo(n - 1) + {CheckpointName(n - 1)};
      assert entries + SavedUpTo(n - 1) + {CheckpointName(n - 1)} == entries + SavedUpTo(n);
    }
  }

  /** Saves never make a readable directory unreadable. */
  lemma {:induction false} AfterSavesReadable(dir: string, entries: set<string>, n: nat)
    requires AllReadable(dir, entries)
    ensures AllReadable(dir, AfterSaves(dir, entries, n))
  {
    if n > 0 {
      AfterSavesReadable(dir, entries, n - 1);
      ParseEpochOfCheckpoint(dir, n - 1);
    }
  }

  /** Saving epochs 0, 1, .., n - 1 in order into an empty directory leaves
      the files of the last two epochs, or only epoch 0's when n == 1. */
  lemma FreshRunKeepsLastTwo(dir: string, n: nat)
    requires n >= 1
    ensures AfterSaves(dir, {}, n) == LastTwo(n)
  {
    AfterSavesClosedForm(dir, {}, n);
    assert {} + SavedUpTo(n) == SavedUpTo(n);
    forall name | name in Retained(dir, SavedUpTo(n), n - 1)
      ensures name in LastTwo(n)
    {
      FreshRunKept(dir, n, name);
    }
    forall name | name in LastTwo(n)
      ensures name in Retained(dir, SavedUpTo(n), n - 1)
    {
      FreshRunKeeps(dir, n, name);
    }
  }

  /** What a save reports: it finished, or int() raised on the path of the
      named entry. */
  datatype SaveOutcome = Saved | Raised(name: string)

  /** The run's checkpoint directory, as the set of its entry names. */
  class CheckpointDir {
    const path: string
    var entries: set<string>

    constructor (path: string, entries: set<string>)
      ensures this.path == path && this.entries == entries
    {
      this.path := path;
      this.entries := entries;
    }

    /** One pass of the loop over the listed files (lines 49-50): read the
        epoch number of the entry and delete the entry when it is stale;
        false when int() raises. */
    method PruneEntry(name: string, epoch: nat) returns (readable: bool)
      requires IsPkl(name)
      modifies this
      ensures readable <==> !Unreadable(path, name)
      ensures entries == if Stale(path, name, epoch) then old(entries) - {name} else old(entries)
    {
      match ParseEpoch(GlobPath(path, name)) {
        case None =>
          readable := false;
        case Some(number) =>
          readable := true;
          if number < epoch - 1 {
            entries := entries - {name};
          }
      }
    }

    /** save_checkpoint(model, path, epoch). glob lists the entries in no
        fixed order, so when an unreadable name raises, any subset of the
        stale files may already have been deleted. */
    method SaveCheckpoint(epoch: nat) returns (outcome: SaveOutcome)
      modifies this
      ensures CheckpointName(epoch) in entries
      ensures Retained(path, old(entries) + {CheckpointName(epoch)}, epoch) <= entries
      ensures entries <= old(entries) + {CheckpointName(epoch)}
      ensures outcome == Saved <==> AllReadable(path, old(entries))
      ensures outcome == Saved ==> entries == Retained(path, old(entries) + {CheckpointName(epoch)}, epoch)
      ensures outcome.Raised? ==> outcome.name in entries && Unreadable(path, outcome.name)
    {
      ParseEpochOfCheckpoint(path, epoch);
      var written := entries + {CheckpointName(epoch)};
      entries := written;
      var listed := set name | name in written && IsPkl(name);
      var pending := listed;
      while pending != {}
        invariant pending <= listed
        invariant entries <= written
        invariant forall name :: name in written ==>
                    (name !in entries <==> name in listed && name !in pending && Stale(path, name, epoch))
        invariant forall name :: name in listed - pending ==> !Unreadable(path, name)
        decreases pending
      {
        var file :| file in pending;
        pending := pending - {file};
        var readable := PruneEntry(file, epoch);
        if !readable {
          return Raised(file);
        }
      }
      assert entries == Retained(path, written, epoch);
      outcome := Saved;
    }
  }
}
