/**
 All-or-nothing rewriting of a set of files: `_write_rendered_metadata_transactionally` and
 `materialize_acceptance_metadata` of src/development_conveyor/accepted_commit.py, and the same
 pattern in `FeatureDecisionResolver._write_rendered` of src/development_conveyor/feature_decisions.py.

 The file system is a map from paths to bytes and mode. A failure may be injected at every
 step that prepares or replaces a file; the steps of a rollback succeed.
 */
module Worktree {
  import opened Prelude
  import opened Text

  newtype Byte = x: int | 0 <= x < 256

  type Bytes = seq<Byte>

  datatype File = File(bytes: Bytes, mode: int)

  /** Repository files have names; a temporary file gets a number that was never used before. */
  datatype Path = Named(name: string) | Temporary(number: nat)

  type Files = map<Path, File>

  datatype Stage = CreateTemporary | FillTemporary | Swap

  /** Whether the given stage raises for the given file. */
  type Faults = (Stage, string) -> bool

  // ---------------------------------------------------------------- specification

  function Rewritten(files: Files, names: seq<string>, bytes: map<string, Bytes>, modes: map<string, int>): (r: Files)
    requires forall n :: n in names ==> n in bytes && n in modes
  {
    map p | p in files.Keys + (set n | n in names :: Named(n)) ::
      if p.Named? && p.name in names then File(bytes[p.name], modes[p.name]) else files[p]
  }

  ghost predicate NoFault(names: seq<string>, fails: Faults) {
    forall n, stage :: n in names ==> !fails(stage, n)
  }

  /** `bytes` and `modes` are what the tree holds for these names. */
  ghost predicate Recorded(files: Files, names: seq<string>, bytes: map<string, Bytes>, modes: map<string, int>) {
    forall n :: n in names ==>
      n in bytes && n in modes && Named(n) in files && files[Named(n)] == File(bytes[n], modes[n])
  }

  lemma RewritingRecordedChangesNothing(files: Files, names: seq<string>, bytes: map<string, Bytes>, modes: map<string,
                                        int>)
    requires Recorded(files, names, bytes, modes)
    ensures Rewritten(files, names, bytes, modes) == files
  {
  }

  lemma RewriteOneMore(files: Files, names: seq<string>, k: nat, bytes: map<string, Bytes>, modes: map<string, int>)
    requires k < |names| && forall n :: n in names ==> n in bytes && n in modes
    ensures Rewritten(files, names[..k + 1], bytes, modes)
      == Rewritten(files, names[..k], bytes, modes)[Named(names[k]) := File(bytes[names[k]], modes[names[k]])]
  {
    assert names[..k + 1] == names[..k] + [names[k]];
  }

  lemma RewriteNothing(files: Files, bytes: map<string, Bytes>, modes: map<string, int>)
    ensures Rewritten(files, [], bytes, modes) == files
  {
  }

  /** `files` is `base` plus the temporary files `first`, ..., `last - 1`. */
  ghost predicate Holds(files: Files, base: Files, first: nat, last: nat) {
    && (forall p :: p in files <==> (p in base || (p.Temporary? && first <= p.number < last)))
    && (forall p :: p in base ==> files[p] == base[p])
    && (forall p :: p in base && p.Temporary? ==> p.number < first)
  }

  lemma WithoutTemporaries(files: Files, base: Files, first: nat, last: nat)
    requires Holds(files, base, first, last)
    ensures files - (set i | first <= i < last :: Temporary(i)) == base
  {
  }

  lemma NoTemporariesLeft(files: Files, base: Files, next: nat)
    requires Holds(files, base, next, next)
    ensures files == base
  {
  }

  lemma NoFaultByStage(names: seq<string>, fails: Faults)
    ensures NoFault(names, fails) <==> (
      && (forall n :: n in names ==> !fails(CreateTemporary, n) && !fails(FillTemporary, n))
      && (forall n :: n in names ==> !fails(Swap, n)))
  {
    if (forall n :: n in names ==> !fails(CreateTemporary, n) && !fails(FillTemporary, n)) &&
        (forall n :: n in names ==> !fails(Swap, n)) {
      forall n, stage | n in names ensures !fails(stage, n) {
        match stage
        case CreateTemporary =>
        case FillTemporary =>
        case Swap =>
      }
    }
  }

  /** The temporary files of `names[lo..hi]` are filled. */
  ghost predicate Filled(files: Files, names: seq<string>, lo: nat, hi: nat, first: nat,
                         bytes: map<string, Bytes>, modes: map<string, int>)
    requires hi <= |names| && forall n :: n in names ==> n in bytes && n in modes
  {
    forall i :: lo <= i < hi ==>
      Temporary(first + i) in files && files[Temporary(first + i)] == File(bytes[names[i]], modes[names[i]])
  }

  /** One more temporary file, created empty and then filled. */
  lemma AfterFilling(files: Files, base: Files, names: seq<string>, k: nat, first: nat, empty: File,
                     bytes: map<string, Bytes>, modes: map<string, int>)
    requires k < |names| && forall n :: n in names ==> n in bytes && n in modes
    requires Holds(files, base, first, first + k) && Filled(files, names, 0, k, first, bytes, modes)
    ensures Holds(files[Temporary(first + k) := empty], base, first, first + k + 1)
    ensures var after := files[Temporary(first + k) := empty][Temporary(first + k) := File(bytes[names[k]],
      modes[names[k]])];
      Holds(after, base, first, first + k + 1) && Filled(after, names, 0, k + 1, first, bytes, modes)
  {
  }

  lemma HoldsNothing(files: Files, names: seq<string>, counter: nat, bytes: map<string, Bytes>, modes: map<string, int>)
    requires forall p :: p in files && p.Temporary? ==> p.number < counter
    requires forall n :: n in names ==> n in bytes && n in modes
    ensures Holds(files, files, counter, counter) && Filled(files, names, 0, 0, counter, bytes, modes)
  {
  }

  /** The tree after the file of `names[k]` was swapped in. */
  lemma AfterSwap(files: Files, base: Files, names: seq<string>, k: nat, first: nat, bytes: map<string, Bytes>,
                  modes: map<string, int>)
    requires k < |names| && forall n :: n in names ==> n in bytes && n in modes
    requires Holds(files, base, first + k, first + |names|) && Filled(files, names, k, |names|, first, bytes, modes)
    ensures Temporary(first + k) in files
    ensures var after := files[Named(names[k]) := files[Temporary(first + k)]] - {Temporary(first + k)};
      && Holds(after, base[Named(names[k]) := File(bytes[names[k]], modes[names[k]])], first + k + 1, first + |names|)
      && Filled(after, names, k + 1, |names|, first, bytes, modes)
  {
  }

  lemma HoldsAfterRestore(files: Files, base: Files, first: nat, last: nat, names: seq<string>,
                          bytes: map<string, Bytes>, modes: map<string, int>)
    requires Holds(files, base, first, last) && forall n :: n in names ==> n in bytes && n in modes
    ensures Holds(Rewritten(files, names, bytes, modes), Rewritten(base, names, bytes, modes), first, last)
  {
  }

  lemma RestoreOverwrites(files: Files, names: seq<string>, bytes: map<string, Bytes>, modes: map<string, int>,
                          bytes': map<string, Bytes>, modes': map<string, int>)
    requires forall n :: n in names ==> n in bytes && n in modes && n in bytes' && n in modes'
    ensures Rewritten(Rewritten(files, names, bytes, modes), names, bytes', modes') ==
      Rewritten(files, names, bytes', modes')
  {
  }

  lemma RestoredPrefix(before: Files, after: Files, names: seq<string>, bytes: map<string, Bytes>, modes: map<string,
                       int>)
    requires forall n :: n in names ==> n in bytes && n in modes
    requires exists done :: 0 <= done < |names| && after == Rewritten(before, names[..done], bytes, modes)
    ensures Recorded(before, names, bytes, modes) ==> after == before
  {
    var done :| 0 <= done < |names| && after == Rewritten(before, names[..done], bytes, modes);
    if Recorded(before, names, bytes, modes) {
      RewritingRecordedChangesNothing(before, names[..done], bytes, modes);
    }
  }

  // ---------------------------------------------------------------- one file after the other

  /** The permission bits that `st_mode & 0o777` keeps. */
  const PERMISSIONS: int := 0x200

  /** The names, in order, whose rendered bytes differ from the originals. */
  function Differing(names: seq<string>, rendered: map<string, Bytes>, originals: map<string, Bytes>): (r: seq<string>)
    requires forall n :: n in names ==> n in rendered && n in originals
    ensures forall n :: n in r <==> n in names && rendered[n] != originals[n]
  {
    if names == [] then []
    else
      var first := if rendered[names[0]] == originals[names[0]] then [] else [names[0]];
      first + Differing(names[1..], rendered, originals)
  }

  /** The names of a list before the first one whose write fails. */
  function BeforeFailure(names: seq<string>, fails: string -> bool): (r: seq<string>)
    ensures r <= names && forall n :: n in r ==> !fails(n)
    ensures r == names <==> forall n :: n in names ==> !fails(n)
  {
    if names == [] || fails(names[0]) then [] else [names[0]] + BeforeFailure(names[1..], fails)
  }

  /** What is left of the modes of files that are written anew. */
  function Masked(files: Files, names: seq<string>): map<string, int>
    requires forall n :: n in names ==> Named(n) in files
  {
    map n | n in names :: files[Named(n)].mode % PERMISSIONS
  }

  /** No set-user, set-group or sticky bit on any of these files. */
  ghost predicate PlainModes(files: Files, names: seq<string>)
    requires forall n :: n in names ==> Named(n) in files
  {
    forall n :: n in names ==> 0 <= files[Named(n)].mode < PERMISSIONS
  }

  /** The files after writing `names` anew, each with the given bytes and what is left of its mode. */
  function WrittenAnew(files: Files, names: seq<string>, bytes: map<string, Bytes>): Files
    requires forall n :: n in names ==> n in bytes && Named(n) in files
  {
    Rewritten(files, names, bytes, Masked(files, names))
  }

  /** Writing files anew keeps every mode exactly when none of them has a bit above the permissions. */
  lemma ModesKeptIff(files: Files, names: seq<string>, bytes: map<string, Bytes>)
    requires forall n :: n in names ==> n in bytes && Named(n) in files
    ensures WrittenAnew(files, names, bytes).Keys == files.Keys
    ensures (forall p :: p in files ==> WrittenAnew(files, names, bytes)[p].mode == files[p].mode) <==>
      PlainModes(files, names)
  {
    var after := WrittenAnew(files, names, bytes);
    if forall p :: p in files ==> after[p].mode == files[p].mode {
      forall n | n in names ensures 0 <= files[Named(n)].mode < PERMISSIONS {
        assert after[Named(n)].mode == files[Named(n)].mode;
      }
    }
  }

  /** Writing back the bytes that the files have restores them exactly when the modes are plain. */
  lemma RestoredIff(files: Files, names: seq<string>, originals: map<string, Bytes>)
    requires forall n :: n in names ==> n in originals && Named(n) in files && files[Named(n)].bytes == originals[n]
    ensures WrittenAnew(files, names, originals) == files <==> PlainModes(files, names)
  {
    ModesKeptIff(files, names, originals);
    var after := WrittenAnew(files, names, originals);
    if PlainModes(files, names) {
      forall p | p in files ensures after[p] == files[p] {
        if p.Named? && p.name in names {
          assert after[p] == File(originals[p.name], files[p].mode);
        }
      }
    }
  }

  lemma WriteOneMore(files: Files, done: seq<string>, name: string, bytes: map<string, Bytes>)
    requires forall n :: n in done + [name] ==> n in bytes && Named(n) in files
    ensures WrittenAnew(files, done + [name], bytes)
      == WrittenAnew(files, done, bytes)[Named(name) := File(bytes[name], files[Named(name)].mode % PERMISSIONS)]
  {
  }

  lemma RewritePrepend(files: Files, name: string, names: seq<string>, bytes: map<string, Bytes>, modes: map<string,
                       int>)
    requires forall n :: n in [name] + names ==> n in bytes && n in modes
    ensures Rewritten(files, [name] + names, bytes, modes) ==
      Rewritten(files, names, bytes, modes)[Named(name) := File(bytes[name], modes[name])]
  {
  }

  // ---------------------------------------------------------------- acceptance metadata

  /** The tracked names whose bytes differ from the commit. */
  function ChangedPaths(files: Files, commit: map<string, Bytes>): set<string> {
    set n | n in commit && (Named(n) !in files || files[Named(n)].bytes != commit[n])
  }

  /** No file that the commit does not know. */
  predicate NothingUntracked(files: Files, commit: map<string, Bytes>) {
    forall p :: p in files ==> p.Named? && p.name in commit
  }

  function Diff(files: Files, commit: map<string, Bytes>): map<string, Bytes> {
    map n | n in commit && Named(n) in files && files[Named(n)].bytes != commit[n] :: files[Named(n)].bytes
  }

  /** The checks of `materialize_acceptance_metadata` before it writes anything. */
  predicate Admissible(files: Files, commit: map<string, Bytes>, rendered: map<string, Bytes>, retained: set<string>,
                       retainedDiff: Option<map<string, Bytes>>)
    requires rendered.Keys <= commit.Keys
  {
    && NothingUntracked(files, commit)
    && retained <= rendered.Keys
    && ChangedPaths(files, commit) == retained
    && retainedDiff == (if retained == {} then None else Some(Diff(files, commit)))
    && (forall n :: n in rendered ==> Named(n) in files)
    && (forall n :: n in rendered ==> files[Named(n)].bytes == if n in retained then rendered[n] else commit[n])
  }

  /** What the transaction promises to write: the rendered bytes with the modes the files had. */
  function Materialized(files: Files, rendered: map<string, Bytes>): Files {
    map p | p in files :: if p.Named? && p.name in rendered then File(rendered[p.name], files[p].mode) else files[p]
  }

  lemma ModeKept(files: Files, names: seq<string>, name: string, bytes: map<string, Bytes>, modes: map<string, int>)
    requires forall n :: n in names ==> n in bytes && n in modes
    requires Named(name) in files && name in modes && files[Named(name)].mode == modes[name]
    ensures var after := Rewritten(files, names, bytes, modes);
      Named(name) in after && after[Named(name)].mode == modes[name]
  {
  }

  lemma RestoresAll(start: Files, before: Files, names: seq<string>, originals: map<string, Bytes>, modes: map<string,
                    int>)
    requires start.Keys == before.Keys && originals.Keys == modes.Keys && forall n :: n in names <==> n in originals
    requires forall n :: n in originals ==> Named(n) in before && before[Named(n)] == File(originals[n], modes[n])
    requires forall p :: p in start && !(p.Named? && p.name in originals) ==> start[p] == before[p]
    ensures Rewritten(start, names, originals, modes) == before
  {
  }

  lemma OriginalsRecorded(files: Files, names: seq<string>, originals: map<string, Bytes>, modes: map<string, int>)
    requires forall n :: n in names ==>
      n in originals && n in modes && Named(n) in files && files[Named(n)] == File(originals[n], modes[n])
    ensures Recorded(files, names, originals, modes)
  {
  }

  lemma NoFaultMeans(names: seq<string>, fails: Faults)
    ensures NoFault(names, fails) <==> forall n, stage :: n in names ==> !fails(stage, n)
  {
  }

  lemma RewrittenIsMaterialized(files: Files, names: seq<string>, rendered: map<string, Bytes>, modes: map<string, int>)
    requires forall n :: n in names <==> n in rendered
    requires forall n :: n in rendered ==> n in modes && Named(n) in files && modes[n] == files[Named(n)].mode
    ensures Rewritten(files, names, rendered, modes) == Materialized(files, rendered)
  {
  }

  /** The tree is observed as expected right after the rewrite: exactly the authorised paths have changed. */
  lemma MaterializedIsObserved(files: Files, commit: map<string, Bytes>, rendered: map<string, Bytes>,
                               retained: set<string>,
                               retainedDiff: Option<map<string, Bytes>>)
    requires rendered.Keys <= commit.Keys && forall n :: n in rendered ==> rendered[n] != commit[n]
    requires Admissible(files, commit, rendered, retained, retainedDiff)
    ensures ChangedPaths(Materialized(files, rendered), commit) == rendered.Keys
    ensures NothingUntracked(Materialized(files, rendered), commit)
  {
    var after := Materialized(files, rendered);
    forall n | n in commit ensures n in ChangedPaths(after, commit) <==> n in rendered {
      if n !in rendered {
        assert n !in ChangedPaths(files, commit);
        assert after[Named(n)] == files[Named(n)];
      } else {
        assert after[Named(n)].bytes == rendered[n];
      }
    }
  }

  lemma MaterializedKeepsOthers(files: Files, rendered: map<string, Bytes>)
    ensures var after := Materialized(files, rendered);
      && after.Keys == files.Keys
      && (forall p :: p in files ==> after[p].mode == files[p].mode)
      && (forall p :: p in files && !(p.Named? && p.name in rendered) ==> after[p] == files[p])
  {
  }

  /** `sorted(s)` of a set of names. */
  method SortedNames(s: set<string>) returns (names: seq<string>)
    ensures Sorted(names) && Distinct(names)
    ensures forall n :: n in names <==> n in s
  {
    var rest := s;
    var listed := [];
    while rest != {}
      invariant rest <= s
      invariant forall n :: n in listed <==> n in s && n !in rest
      decreases rest
    {
      var n :| n in rest;
      listed := listed + [n];
      rest := rest - {n};
    }
    names := SortedSet(listed);
  }

  // ---------------------------------------------------------------- the tree

  class Worktree {
    var files: Files
    var counter: nat

    /** Numbers of temporary files are never reused. */
    ghost predicate Valid()
      reads this
    {
      forall p :: p in files && p.Temporary? ==> p.number < counter
    }

    method MakeTemporary() returns (t: Path)
      requires Valid()
      modifies this
      ensures Valid() && counter == old(counter) + 1
      ensures t == Temporary(old(counter)) && t !in old(files)
      ensures files == old(files)[t := File([], 0x180)]
    {
      t := Temporary(counter);
      files := files[t := File([], 0x180)];
      counter := counter + 1;
    }

    /** `os.replace`: the source disappears and the target holds what it held. */
    method Replace(source: Path, target: Path)
      requires Valid() && source in files && source != target && (target.Temporary? ==> target in files)
      modifies this`files
      ensures Valid() && files == old(files)[target := old(files)[source]] - {source}
    {
      files := files[target := files[source]] - {source};
    }

    method AtomicWrite(target: Path, file: File)
      requires Valid() && target.Named?
      modifies this`files
      ensures Valid() && files == old(files)[target := file]
    {
      files := files[target := file];
    }

    method Unlink(target: Path)
      requires Valid()
      modifies this`files
      ensures Valid() && files == old(files) - {target}
    {
      files := files - {target};
    }

    /** Unlinks the temporary files `first`, ..., `last - 1`. */
    method UnlinkTemporaries(first: nat, last: nat)
      requires Valid() && first <= last
      modifies this`files
      ensures Valid() && files == old(files) - (set i | first <= i < last :: Temporary(i))
    {
      var i := first;
      while i < last
        invariant first <= i <= last && Valid()
        invariant files == old(files) - (set j | first <= j < i :: Temporary(j))
      {
        Unlink(Temporary(i));
        i := i + 1;
      }
    }

    method Restore(names: seq<string>, originals: map<string, Bytes>, modes: map<string, int>)
      requires Valid() && forall n :: n in names ==> n in originals && n in modes
      modifies this`files
      ensures Valid() && files == Rewritten(old(files), names, originals, modes)
    {
      hide Rewritten;
      var i := 0;
      RewriteNothing(files, originals, modes);
      assert names[..i] == [];
      while i < |names|
        invariant 0 <= i <= |names| && Valid()
        invariant files == Rewritten(old(files), names[..i], originals, modes)
      {
        RewriteOneMore(old(files), names, i, originals, modes);
        AtomicWrite(Named(names[i]), File(originals[names[i]], modes[names[i]]));
        i := i + 1;
      }
      assert names[..i] == names;
    }

    /**
     Prepares one filled temporary file per name, in order. `made` says how many exist
     afterwards; all of them are filled when no stage failed.
     */
    method Prepare(names: seq<string>, rendered: map<string, Bytes>, modes: map<string, int>, fails: Faults)
      returns (ok: bool, made: nat)
      requires Valid() && forall n :: n in names ==> n in rendered && n in modes
      modifies this
      ensures Valid() && made <= |names| && counter == old(counter) + made
      ensures ok <==> forall n :: n in names ==> !fails(CreateTemporary, n) && !fails(FillTemporary, n)
      ensures ok ==> made == |names|
      ensures Holds(files, old(files), old(counter), old(counter) + made)
      ensures ok ==> Filled(files, names, 0, |names|, old(counter), rendered, modes)
    {
      hide Holds, Filled;
      made := 0;
      HoldsNothing(files, names, counter, rendered, modes);
      while made < |names|
        invariant 0 <= made <= |names| && Valid() && counter == old(counter) + made
        invariant forall i :: 0 <= i < made ==> !fails(CreateTemporary, names[i]) && !fails(FillTemporary, names[i])
        invariant Holds(files, old(files), old(counter), old(counter) + made)
        invariant Filled(files, names, 0, made, old(counter), rendered, modes)
      {
        var name := names[made];
        if fails(CreateTemporary, name) {
          return false, made;
        }
        AfterFilling(files, old(files), names, made, old(counter), File([], 0x180), rendered, modes);
        var t := MakeTemporary();
        if fails(FillTemporary, name) {
          return false, made + 1;
        }
        files := files[t := File(rendered[name], modes[name])];
        made := made + 1;
      }
      return true, made;
    }

    /** Swaps the prepared files in, in order, up to the first failure; `done` counts the swapped ones. */
    method SwapAll(names: seq<string>, first: nat, rendered: map<string, Bytes>, modes: map<string, int>, fails: Faults,
                   ghost before: Files)
      returns (done: nat)
      requires Valid() && forall n :: n in names ==> n in rendered && n in modes
      requires Holds(files, before, first, first + |names|)
      requires Filled(files, names, 0, |names|, first, rendered, modes)
      modifies this`files
      ensures Valid() && done <= |names|
      ensures (forall i :: 0 <= i < done ==> !fails(Swap, names[i])) && (done < |names| ==> fails(Swap, names[done]))
      ensures Holds(files, Rewritten(before, names[..done], rendered, modes), first + done, first + |names|)
    {
      hide Rewritten, Holds, Filled;
      done := 0;
      ghost var base := before;
      RewriteNothing(before, rendered, modes);
      assert names[..0] == [];
      while done < |names| && !fails(Swap, names[done])
        invariant 0 <= done <= |names| && Valid()
        invariant forall i :: 0 <= i < done ==> !fails(Swap, names[i])
        invariant base == Rewritten(before, names[..done], rendered, modes)
        invariant Holds(files, base, first + done, first + |names|)
        invariant Filled(files, names, done, |names|, first, rendered, modes)
      {
        var name := names[done];
        AfterSwap(files, base, names, done, first, rendered, modes);
        RewriteOneMore(before, names, done, rendered, modes);
        Replace(Temporary(first + done), Named(name));
        base := base[Named(name) := File(rendered[name], modes[name])];
        done := done + 1;
      }
    }

    /** The replacing half: all prepared files swapped in, or the swapped ones restored. */
    method SwapOrRestore(names: seq<string>, first: nat, rendered: map<string, Bytes>, originals: map<string, Bytes>,
                         modes: map<string, int>, fails: Faults, ghost before: Files)
      returns (ok: bool)
      requires Valid() && forall n :: n in names ==> n in rendered && n in originals && n in modes
      requires Holds(files, before, first, first + |names|)
      requires Filled(files, names, 0, |names|, first, rendered, modes)
      modifies this`files
      ensures Valid()
      ensures ok <==> forall n :: n in names ==> !fails(Swap, n)
      ensures ok ==> files == Rewritten(before, names, rendered, modes)
      ensures !ok ==> exists done :: 0 <= done < |names| && files == Rewritten(before, names[..done], originals, modes)
    {
      hide Rewritten, Holds, Filled;
      var done := SwapAll(names, first, rendered, modes, fails, before);
      ghost var swapped := Rewritten(before, names[..done], rendered, modes);
      if done < |names| {
        HoldsAfterRestore(files, swapped, first + done, first + |names|, names[..done], originals, modes);
        RestoreOverwrites(before, names[..done], rendered, modes, originals, modes);
        Restore(names[..done], originals, modes);
        WithoutTemporaries(files, Rewritten(before, names[..done], originals, modes), first + done, first + |names|);
        UnlinkTemporaries(first + done, first + |names|);
        return false;
      }
      assert names[..done] == names;
      NoTemporariesLeft(files, swapped, first + done);
      return true;
    }

    /**
     `_write_rendered_metadata_transactionally`: without a fault every file has its rendered bytes;
     with a fault at any step the replaced files have the given originals back. In both cases
     no temporary file survives and no other path changes.
     */
    method WriteTransactionally(rendered: map<string, Bytes>, originals: map<string, Bytes>, modes: map<string, int>,
                                fails: Faults)
      returns (ok: bool, ghost names: seq<string>)
      requires Valid() && rendered.Keys <= originals.Keys && rendered.Keys <= modes.Keys
      modifies this
      ensures Valid()
      ensures Sorted(names) && Distinct(names) && forall n :: n in names <==> n in rendered
      ensures ok <==> NoFault(names, fails)
      ensures ok ==> files == Rewritten(old(files), names, rendered, modes)
      ensures !ok ==>
        exists done :: 0 <= done < |names| && files == Rewritten(old(files), names[..done], originals, modes)
      ensures !ok && Recorded(old(files), names, originals, modes) ==> files == old(files)
    {
      hide Rewritten, Holds, Filled, Sorted, Distinct, Recorded, NoFault;
      var order := SortedNames(rendered.Keys);
      names := order;
      NoFaultByStage(names, fails);
      var first := counter;
      ghost var before := files;
      var prepared, made := Prepare(order, rendered, modes, fails);
      if !prepared {
        WithoutTemporaries(files, before, first, first + made);
        UnlinkTemporaries(first, first + made);
        RewriteNothing(before, originals, modes);
        assert names[..0] == [] && |names| > 0;
        return false, names;
      }
      ok := SwapOrRestore(order, first, rendered, originals, modes, fails, before);
      if !ok {
        RestoredPrefix(before, files, names, originals, modes);
      }
    }

    /**
     `materialize_acceptance_metadata` under a single writer. `ready` stands for the branch, head
     and Git-operation checks. The renderer leaves no authorised path equal to the commit. The tree is
     observed twice after the rewrite: a failure of the first observation puts every file back, a
     failure of the second one leaves every file rewritten.
     */
    method MaterializeAcceptanceMetadata(ready: bool, commit: map<string, Bytes>, rendered: map<string, Bytes>,
      retained: set<string>, retainedDiff: Option<map<string, Bytes>>, fails: Faults, firstFails: bool,
        secondFails: bool) returns (ok: bool)
      requires Valid() && rendered.Keys <= commit.Keys && forall n :: n in rendered ==> rendered[n] != commit[n]
      modifies this
      ensures Valid()
      ensures var written := ready && Admissible(old(files), commit, rendered, retained, retainedDiff)
          && (forall n, stage :: n in rendered ==> !fails(stage, n)) && !firstFails;
        && (ok <==> written && !secondFails)
        && files == if written then Materialized(old(files), rendered) else old(files)
    {
      hide Sorted, Distinct, Rewritten, ChangedPaths, NothingUntracked, Diff, Materialized, Recorded, NoFault;
      if !ready || !Admissible(files, commit, rendered, retained, retainedDiff) {
        return false;
      }
      var originals := map n | n in rendered :: files[Named(n)].bytes;
      var modes := map n | n in rendered :: files[Named(n)].mode;
      ghost var before := files;
      var written, names := WriteTransactionally(rendered, originals, modes, fails);
      OriginalsRecorded(before, names, originals, modes);
      NoFaultMeans(names, fails);
      if !written {
        RestoreDiffering(originals, modes, before);
        return false;
      }
      RewrittenIsMaterialized(before, names, rendered, modes);
      MaterializedIsObserved(before, commit, rendered, retained, retainedDiff);
      if firstFails || ChangedPaths(files, commit) != rendered.Keys || !NothingUntracked(files, commit) {
        MaterializedKeepsOthers(before, rendered);
        RestoreDiffering(originals, modes, before);
        return false;
      }
      return !secondFails && ChangedPaths(files, commit) == rendered.Keys;
    }

    /** The restoring loop around the transaction: writes back the files whose bytes differ from the originals. */
    method RestoreDiffering(originals: map<string, Bytes>, modes: map<string, int>, ghost before: Files)
      requires Valid() && originals.Keys == modes.Keys && files.Keys == before.Keys
      requires forall n :: n in originals ==> Named(n) in before && before[Named(n)] == File(originals[n], modes[n])
      requires forall p :: p in files ==> files[p].mode == before[p].mode
      requires forall p :: p in files && !(p.Named? && p.name in originals) ==> files[p] == before[p]
      modifies this`files
      ensures Valid() && files == before
    {
      hide Sorted, Distinct, Rewritten;
      var names := SortedNames(originals.Keys);
      ghost var start := files;
      var i := 0;
      RewriteNothing(start, originals, modes);
      while i < |names|
        invariant 0 <= i <= |names| && Valid()
        invariant files == Rewritten(start, names[..i], originals, modes)
      {
        RewriteOneMore(start, names, i, originals, modes);
        ModeKept(start, names[..i], names[i], originals, modes);
        if files[Named(names[i])].bytes != originals[names[i]] {
          AtomicWrite(Named(names[i]), File(originals[names[i]], modes[names[i]]));
        }
        i := i + 1;
      }
      assert names[..i] == names;
      RestoresAll(start, before, names, originals, modes);
    }

    // ---------------------------------------------------------------- feature decisions

    /**
     `FeatureDecisionResolver._write_rendered`: writes the differing files one by one and puts the
     already written ones back, in reverse order, after a failure. Only the permission bits survive a
     write, so modes are kept, and a failed call restores the tree, exactly when no written file has
     any other bit.
     */
    method WriteRendered(names: seq<string>, rendered: map<string, Bytes>, originals: map<string, Bytes>,
                         fails: string -> bool)
      returns (ok: bool, written: seq<string>)
      requires Valid() && Distinct(names) && forall n :: n in names ==> n in rendered && n in originals
      requires forall n :: n in names ==> Named(n) in files && files[Named(n)].bytes == originals[n]
      modifies this`files
      ensures Valid()
      ensures var differing := Differing(names, rendered, originals);
        var done := BeforeFailure(differing, fails);
        && (ok <==> forall n :: n in differing ==> !fails(n))
        && files == old(WrittenAnew(files, done, if ok then rendered else originals))
        && (ok ==> done == differing && written == SortedSet(differing))
        && ((forall p :: p in files ==> p in old(files) && files[p].mode == old(files)[p].mode) <==>
            old(PlainModes(files, done)))
        && (!ok ==> (files == old(files) <==> old(PlainModes(files, done))))
    {
      hide Sorted, Distinct, WrittenAnew, PlainModes, SortedSet, Differing, BeforeFailure;
      ghost var before := files;
      ghost var differing := Differing(names, rendered, originals);
      var done, failed := WriteDiffering(names, rendered, originals, fails);
      if failed {
        UndoWritten(done, rendered, originals, before);
        ModesKeptIff(before, done, originals);
        RestoredIff(before, done, originals);
        return false, [];
      }
      ModesKeptIff(before, done, rendered);
      return true, SortedSet(done);
    }

    /** The writing loop: writes the differing files anew, in order, up to the first failure. */
    method WriteDiffering(names: seq<string>, rendered: map<string, Bytes>, originals: map<string, Bytes>,
                          fails: string -> bool)
      returns (done: seq<string>, failed: bool)
      requires Valid() && Distinct(names) && forall n :: n in names ==>
        n in rendered && n in originals && Named(n) in files
      modifies this`files
      ensures Valid()
      ensures done == BeforeFailure(Differing(names, rendered, originals), fails)
      ensures failed <==> done != Differing(names, rendered, originals)
      ensures forall n :: n in done ==> n in names
      ensures files == WrittenAnew(old(files), done, rendered)
    {
      hide WrittenAnew, Differing, BeforeFailure, Distinct;
      ghost var before := files;
      ghost var differing := Differing(names, rendered, originals);
      done := [];
      var i := 0;
      NothingAnew(before, rendered);
      while i < |names|
        invariant 0 <= i <= |names| && Valid()
        invariant forall n :: n in done ==> n in names[..i] && !fails(n)
        invariant differing == done + Differing(names[i..], rendered, originals)
        invariant files == WrittenAnew(before, done, rendered)
      {
        var name := names[i];
        ghost var rest := Differing(names[i + 1..], rendered, originals);
        assert names[i..] == [name] + names[i + 1..];
        assert names[..i + 1] == names[..i] + [name];
        DifferingStep(name, names[i + 1..], rendered, originals);
        if rendered[name] != originals[name] {
          assert differing == done + ([name] + rest) == (done + [name]) + rest;
          if fails(name) {
            FailureAfter(done, name, rest, fails);
            return done, true;
          }
          NotYet(names, i);
          FreshFile(before, done, name, rendered);
          AtomicWrite(Named(name), File(rendered[name], files[Named(name)].mode % PERMISSIONS));
          WriteOneMore(before, done, name, rendered);
          done := done + [name];
        }
        i := i + 1;
      }
      DifferingNothing(rendered, originals);
      assert names[i..] == [] && differing == done;
      NoFailure(done, fails);
      return done, false;
    }

    /** Writes the originals back, the last written file first. */
    method UndoWritten(done: seq<string>, rendered: map<string, Bytes>, originals: map<string, Bytes>,
                       ghost before: Files)
      requires Valid() && forall n :: n in done ==> n in rendered && n in originals && Named(n) in before
      requires files == WrittenAnew(before, done, rendered)
      modifies this`files
      ensures Valid() && files == WrittenAnew(before, done, originals)
    {
      hide Rewritten;
      ghost var written := files;
      ghost var modes := Masked(before, done);
      var i := |done|;
      RewriteNothing(written, originals, modes);
      assert done[i..] == [];
      while i > 0
        invariant 0 <= i <= |done| && Valid()
        invariant files == Rewritten(written, done[i..], originals, modes)
      {
        i := i - 1;
        PutBack(before, done, rendered, originals, i);
        var target := Named(done[i]);
        AtomicWrite(target, File(originals[done[i]], files[target].mode % PERMISSIONS));
      }
      assert done[0..] == done;
      RestoreOverwrites(before, done, rendered, modes, originals, modes);
    }
  }

  /** Among written files every mode is masked, whichever of them have their originals back. */
  lemma MaskedInside(before: Files, done: seq<string>, some: seq<string>, name: string, rendered: map<string, Bytes>,
                     originals: map<string, Bytes>)
    requires name in done && forall n :: n in done ==> n in rendered && n in originals && Named(n) in before
    requires forall n :: n in some ==> n in done
    ensures var now := Rewritten(WrittenAnew(before, done, rendered), some, originals, Masked(before, done));
      Named(name) in now && now[Named(name)].mode == Masked(before, done)[name]
  {
  }

  /** The written file of `done[i]` gets its original back. */
  lemma PutBack(before: Files, done: seq<string>, rendered: map<string, Bytes>, originals: map<string, Bytes>, i: nat)
    requires i < |done| && forall n :: n in done ==> n in rendered && n in originals && Named(n) in before
    ensures var written, modes, target := WrittenAnew(before, done, rendered), Masked(before, done), Named(done[i]);
      var now := Rewritten(written, done[i + 1..], originals, modes);
      && target in now
      && Rewritten(written, done[i..], originals, modes) ==
          now[target := File(originals[done[i]], now[target].mode % PERMISSIONS)]
  {
    hide Rewritten, WrittenAnew;
    assert done[i..] == [done[i]] + done[i + 1..];
    RewritePrepend(WrittenAnew(before, done, rendered), done[i], done[i + 1..], originals, Masked(before, done));
    MaskedInside(before, done, done[i + 1..], done[i], rendered, originals);
  }

  lemma DifferingStep(name: string, rest: seq<string>, rendered: map<string, Bytes>, originals: map<string, Bytes>)
    requires forall n :: n in [name] + rest ==> n in rendered && n in originals
    ensures Differing([name] + rest, rendered, originals)
      == (if rendered[name] == originals[name] then [] else [name]) + Differing(rest, rendered, originals)
  {
    assert ([name] + rest)[1..] == rest;
  }

  lemma DifferingNothing(rendered: map<string, Bytes>, originals: map<string, Bytes>)
    ensures Differing([], rendered, originals) == []
  {
  }

  lemma NoFailure(names: seq<string>, fails: string -> bool)
    requires forall n :: n in names ==> !fails(n)
    ensures BeforeFailure(names, fails) == names
  {
  }

  lemma NothingAnew(files: Files, bytes: map<string, Bytes>)
    ensures WrittenAnew(files, [], bytes) == files
  {
    RewriteNothing(files, bytes, Masked(files, []));
  }

  lemma NotYet(names: seq<string>, i: nat)
    requires i < |names| && Distinct(names)
    ensures names[i] !in names[..i]
  {
  }

  lemma FreshFile(files: Files, done: seq<string>, name: string, bytes: map<string, Bytes>)
    requires name !in done && Named(name) in files && forall n :: n in done ==> n in bytes && Named(n) in files
    ensures Named(name) in WrittenAnew(files, done, bytes) &&
      WrittenAnew(files, done, bytes)[Named(name)] == files[Named(name)]
  {
  }

  lemma {:induction false} FailureAfter(done: seq<string>, name: string, rest: seq<string>, fails: string -> bool)
    requires fails(name) && forall n :: n in done ==> !fails(n)
    ensures BeforeFailure(done + ([name] + rest), fails) == done
  {
    var all := done + ([name] + rest);
    if done != [] {
      assert all[1..] == done[1..] + ([name] + rest);
      FailureAfter(done[1..], name, rest, fails);
    }
  }

  // ---------------------------------------------------------------- a file with a set-group bit

  const SET_GROUP_FILE: Files := map[Named("a") := File([1], 0x5a4)]

  /** A file with mode 0o2644 ends with mode 0o644, whether it is rewritten or put back after a failure. */
  lemma SetGroupBitIsLost()
    ensures WrittenAnew(SET_GROUP_FILE, ["a"], map["a" := [2]]) == map[Named("a") := File([2], 0x1a4)]
    ensures WrittenAnew(SET_GROUP_FILE, ["a"], map["a" := [1]]) == map[Named("a") := File([1], 0x1a4)] != SET_GROUP_FILE
  {
    assert SET_GROUP_FILE[Named("a")].mode == 0x5a4;
    assert map[Named("a") := File([1], 0x1a4)][Named("a")].mode == 0x1a4;
  }
}
