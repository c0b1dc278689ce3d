/**
 The unix pointer primitives of portable.rs, file operation by file operation,
 and the map-based FakeFileSystem of fake.rs that they refine. `history` holds
 every directory state that a crash could leave on disk.
 */
module Pointers {
  import opened Prelude
  import opened Domain

  /** `with_extension("new")` and `with_extension("restore")` name four more files beside the two pointers. */
  datatype File = Current | Previous | CurrentNew | PreviousNew | CurrentRestore | PreviousRestore

  function ReadLink(entries: map<File, Name>, f: File): Option<Name> {
    if f in entries then Some(entries[f]) else None
  }

  function PairOf(entries: map<File, Name>): Pair {
    Pair(ReadLink(entries, Current), ReadLink(entries, Previous))
  }

  /** What every micro-step of a switch must leave readable. */
  ghost predicate CrashConsistent(before: Pair, target: Name, now: Pair) {
    && (now.current == before.current || now.current == Some(target))
    && (before.current.Some? ==> now.current.Some?)
    && (now.previous == before.previous || (before.current.Some? && now.previous == before.current))
    && (before.current.Some? && now.current != before.current ==> now.previous == before.current)
  }

  /** The crash states of a switch are exactly the remains that `Domain` lists for it. */
  lemma CrashStatesAreSwitchRemains(before: Pair, target: Name, now: Pair)
    ensures CrashConsistent(before, target, now) <==> now in SwitchRemains(before, target)
  {
    assert now == Pair(now.current, now.previous);
    assert before == Pair(before.current, before.previous);
  }

  /** The pairs that a native switch passes through. */
  function Reach(pair: Pair, target: Name, misread: bool): set<Pair> {
    if misread then {pair, Skipped(pair, target)} else SwitchRemains(pair, target)
  }

  class PointerDirectory {
    var entries: map<File, Name>
    ghost var history: seq<map<File, Name>>

    ghost predicate Valid()
      reads this
    {
      history != [] && history[|history| - 1] == entries
    }

    function Links(): Pair
      reads this
    {
      PairOf(entries)
    }

    /** Every state recorded since the history was `past` is one of `states`. */
    ghost predicate PassedThrough(past: seq<map<File, Name>>, states: set<Pair>)
      reads this
    {
      && past <= history
      && forall i :: |past| <= i < |history| ==> PairOf(history[i]) in states
    }

    constructor (found: map<File, Name>)
      ensures Valid() && entries == found && history == [found]
    {
      entries := found;
      history := [found];
    }

    method RemoveFile(f: File) returns (ok: bool)
      requires Valid()
      modifies this
      ensures Valid() && history == old(history) + [entries]
      ensures entries == if ok then old(entries) - {f} else old(entries)
    {
      ok := *;
      if ok {
        entries := entries - {f};
      }
      history := history + [entries];
    }

    /** `symlink` fails when the name is taken. */
    method Symlink(target: Name, f: File) returns (ok: bool)
      requires Valid()
      modifies this
      ensures Valid() && history == old(history) + [entries]
      ensures ok ==> f !in old(entries)
      ensures entries == if ok then old(entries)[f := target] else old(entries)
    {
      ok := *;
      ok := ok && f !in entries;
      if ok {
        entries := entries[f := target];
      }
      history := history + [entries];
    }

    /** `rename` replaces the destination in one step. */
    method Rename(from: File, to: File) returns (ok: bool)
      requires Valid() && from != to
      modifies this
      ensures Valid() && history == old(history) + [entries]
      ensures ok ==> from in old(entries)
      ensures entries == if ok then (old(entries) - {from})[to := old(entries)[from]] else old(entries)
    {
      ok := *;
      ok := ok && from in entries;
      if ok {
        entries := (entries - {from})[to := entries[from]];
      }
      history := history + [entries];
    }

    method SyncDirectory() returns (ok: bool) {
      ok := *;
    }

    /** Build a fresh symlink beside `pointer` and rename it into place. */
    method Publish(pointer: File, spare: File, target: Name) returns (ok: bool)
      requires Valid()
      requires pointer in {Current, Previous} && spare !in {Current, Previous}
      modifies this
      ensures Valid()
      ensures PassedThrough(old(history), {old(Links()), WithPointer(old(Links()), pointer, Some(target))})
      ensures Links() in {old(Links()), WithPointer(old(Links()), pointer, Some(target))}
      ensures ok ==> Links() == WithPointer(old(Links()), pointer, Some(target))
    {
      var _ := RemoveFile(spare);
      ok := Symlink(target, spare);
      if !ok { return; }
      ok := Rename(spare, pointer);
    }

    /** A `current` that cannot be read is taken for absent: the switch goes on without saving it. */
    method SwitchGeneration(target: Name) returns (ok: bool, ghost misread: bool)
      requires Valid()
      modifies this
      ensures Valid()
      ensures misread ==> old(Links()).current.Some?
      ensures PassedThrough(old(history), Reach(old(Links()), target, misread))
      ensures Links() in Reach(old(Links()), target, misread)
      ensures ok ==> Links() == if misread then Skipped(old(Links()), target) else old(Links()).Switch(target)
    {
      var readable: bool := *;
      misread := !readable && Current in entries;
      if readable && Current in entries {
        ok := Publish(Previous, PreviousNew, entries[Current]);
        if !ok { return; }
      }
      ok := Publish(Current, CurrentNew, target);
      if !ok { return; }
      ok := SyncDirectory();
    }

    /** A `previous` that cannot be read is an error before anything is touched. */
    method RollbackGeneration() returns (ok: bool, ghost misread: bool)
      requires Valid()
      modifies this
      ensures Valid()
      ensures misread ==> old(Links()).current.Some?
      ensures old(Links()).previous.None? ==> !ok && entries == old(entries) && history == old(history)
      ensures old(Links()).previous.Some? ==>
                && PassedThrough(old(history), Reach(old(Links()), old(Links()).previous.value, misread))
                && Links() in Reach(old(Links()), old(Links()).previous.value, misread)
      ensures ok && old(Links()).current.Some? && !misread ==> Links() == old(Links()).Swap()
      ensures ok && (old(Links()).current.None? || misread) ==>
                Links() == Pair(old(Links()).previous, old(Links()).previous)
    {
      var readable: bool := *;
      if Previous !in entries || !readable {
        return false, false;
      }
      ok, misread := SwitchGeneration(entries[Previous]);
    }

    method ReplacePointer(pointer: File, spare: File, target: Option<Name>) returns (ok: bool)
      requires Valid()
      requires pointer in {Current, Previous} && spare !in {Current, Previous}
      modifies this
      ensures Valid()
      ensures PassedThrough(old(history), {old(Links()), WithPointer(old(Links()), pointer, target)})
      ensures Links() in {old(Links()), WithPointer(old(Links()), pointer, target)}
      ensures ok ==> Links() == WithPointer(old(Links()), pointer, target)
    {
      if target.Some? {
        ok := Publish(pointer, spare, target.value);
        if !ok { return; }
      } else {
        var present := pointer in entries;
        ok := RemoveFile(pointer);
        if present && !ok { return; }
      }
      ok := SyncDirectory();
    }

    method RestoreGeneration(wanted: Pair) returns (ok: bool)
      requires Valid()
      modifies this
      ensures Valid()
      ensures PassedThrough(old(history), RestoreRemains(old(Links()), wanted))
      ensures Links() in RestoreRemains(old(Links()), wanted)
      ensures ok ==> Links() == wanted
    {
      ok := ReplacePointer(Current, CurrentRestore, wanted.current);
      if !ok { return; }
      ok := ReplacePointer(Previous, PreviousRestore, wanted.previous);
    }
  }

  function WithPointer(pair: Pair, pointer: File, target: Option<Name>): Pair {
    match pointer
    case Current => pair.(current := target)
    case _ => pair.(previous := target)
  }

  /** fake.rs: a mutex-guarded map, changed whole or not at all. */
  class FakeFileSystem {
    var generations: map<File, Name>

    function Links(): Pair
      reads this
    {
      PairOf(generations)
    }

    constructor (pair: Pair)
      ensures Links() == pair
    {
      generations :=
        (if pair.current.Some? then map[Current := pair.current.value] else map[]) +
        (if pair.previous.Some? then map[Previous := pair.previous.value] else map[]);
    }

    method SwitchGeneration(target: Name)
      modifies this
      ensures Links() == old(Links()).Switch(target)
    {
      if Current in generations {
        generations := generations[Previous := generations[Current]];
      }
      generations := generations[Current := target];
    }

    method RollbackGeneration() returns (ok: bool)
      modifies this
      ensures ok <==> old(Links()).current.Some? && old(Links()).previous.Some?
      ensures Links() == if ok then old(Links()).Swap() else old(Links())
    {
      if Current !in generations || Previous !in generations {
        return false;
      }
      var currentTarget, previousTarget := generations[Current], generations[Previous];
      generations := generations[Current := previousTarget];
      generations := generations[Previous := currentTarget];
      ok := true;
    }

    method RestoreGeneration(wanted: Pair)
      modifies this
      ensures Links() == wanted
    {
      if wanted.current.Some? {
        generations := generations[Current := wanted.current.value];
      } else {
        generations := generations - {Current};
      }
      if wanted.previous.Some? {
        generations := generations[Previous := wanted.previous.value];
      } else {
        generations := generations - {Previous};
      }
    }
  }

  /** One request, sent to both file systems at once. */
  datatype Request = Switch(target: Name) | Rollback | Restore(wanted: Pair)

  /**
   The native file system refines the fake one: started alike, they end alike whenever the
   native call succeeds, with two exceptions. When only `previous` exists, the native rollback
   succeeds where the fake one refuses, and leaves both pointers on the same directory. And
   when the native call could not read `current`, they end alike if and only if `previous`
   already was what should have been saved.
   */
  method RunBoth(native: PointerDirectory, fake: FakeFileSystem, request: Request)
    returns (nativeOk: bool, fakeOk: bool, ghost misread: bool)
    requires native.Valid() && native.Links() == fake.Links()
    modifies native, fake
    ensures native.Valid()
    ensures misread ==> !request.Restore? && old(native.Links()).current.Some?
    ensures nativeOk && !misread ==> (native.Links() == fake.Links() <==> fakeOk)
    ensures nativeOk && misread ==>
              && fakeOk
              && (native.Links() == fake.Links() <==> old(native.Links()).previous == old(native.Links()).current)
    ensures nativeOk && !fakeOk <==> nativeOk && request.Rollback? && old(native.Links()).current.None?
    ensures !fakeOk ==> request.Rollback? && fake.Links() == old(fake.Links())
    ensures nativeOk && !fakeOk ==>
              native.Links().current == native.Links().previous == old(native.Links()).previous
  {
    fakeOk, misread := true, false;
    match request
    case Switch(target) =>
      nativeOk, misread := native.SwitchGeneration(target);
      fake.SwitchGeneration(target);
    case Rollback =>
      nativeOk, misread := native.RollbackGeneration();
      fakeOk := fake.RollbackGeneration();
    case Restore(wanted) =>
      nativeOk := native.RestoreGeneration(wanted);
      fake.RestoreGeneration(wanted);
  }
}
