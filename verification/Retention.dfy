/** Retention of generation directories: `prune_generations` and its twin `prune_owned_generations`. */
module Retention {
  import opened Prelude
  import opened Domain
  import opened Sorting

  datatype Entry = Entry(modified: nat, path: Name)

  /** `sort_by_key(Reverse(modified))`. */
  predicate NewestFirst(a: Entry, b: Entry) {
    a.modified >= b.modified
  }

  /** `listing` names every readable directory exactly once, in some order. */
  ghost predicate Lists(listing: seq<Entry>, dirs: map<Name, Dir>) {
    && (forall i :: 0 <= i < |listing| ==>
          listing[i].path in dirs && listing[i].modified == dirs[listing[i].path].modified)
    && (forall i, j :: 0 <= i < j < |listing| ==> listing[i].path != listing[j].path)
    && (forall n :: n in dirs ==> Entry(dirs[n].modified, n) in listing)
  }

  /** Sorting a listing gives a listing. */
  lemma SortedListing(listing: seq<Entry>, dirs: map<Name, Dir>)
    requires Lists(listing, dirs)
    ensures Lists(Sort(listing, NewestFirst), dirs)
  {
    var sorted := Sort(listing, NewestFirst);
    SortPermutes(listing, NewestFirst);
    SameMembers(listing, sorted);
    forall i | 0 <= i < |sorted|
      ensures sorted[i].path in dirs && sorted[i].modified == dirs[sorted[i].path].modified
    {
      assert sorted[i] in listing;
    }
    forall i, j | 0 <= i < j < |sorted|
      ensures sorted[i].path != sorted[j].path
    {
      PermutationStaysDistinct(listing, sorted, i, j);
      assert sorted[i] in listing && sorted[j] in listing;
    }
  }

  lemma MinusOneMore(m: map<Name, Dir>, gone: set<Name>, x: Name)
    ensures m - gone - {x} == m - (gone + {x})
  {
  }

  function Paths(entries: seq<Entry>): set<Name> {
    if entries == [] then {} else {entries[0].path} + Paths(entries[1..])
  }

  /** What a complete loop over `entries` removes when `room` unprotected directories may still stay. */
  function Excess(entries: seq<Entry>, protected: set<Name>, room: nat): set<Name> {
    if entries == [] then {}
    else if entries[0].path in protected then Excess(entries[1..], protected, room)
    else if room > 0 then Excess(entries[1..], protected, room - 1)
    else {entries[0].path} + Excess(entries[1..], protected, room)
  }

  lemma {:induction false} PathsMember(entries: seq<Entry>, n: Name)
    ensures n in Paths(entries) <==> exists i :: 0 <= i < |entries| && entries[i].path == n
  {
    if entries != [] {
      PathsMember(entries[1..], n);
      if i :| 0 <= i < |entries| && entries[i].path == n {
        assert i > 0 ==> entries[1..][i - 1].path == n;
      }
    }
  }

  ghost predicate DistinctPaths(entries: seq<Entry>) {
    forall i, j :: 0 <= i < j < |entries| ==> entries[i].path != entries[j].path
  }

  /** The excess is what `room` does not cover: an exact number of unprotected directories. */
  lemma {:induction false} ExcessCount(entries: seq<Entry>, protected: set<Name>, room: nat)
    requires DistinctPaths(entries)
    ensures Excess(entries, protected, room) <= Paths(entries) - protected
    ensures |Paths(entries) - protected| == |Excess(entries, protected, room)| + Min(|Paths(entries) - protected|, room)
    ensures room == 0 ==> Excess(entries, protected, room) == Paths(entries) - protected
  {
    if entries != [] {
      var path, rest := entries[0].path, entries[1..];
      PathsMember(rest, path);
      if path in protected {
        ExcessCount(rest, protected, room);
        assert Paths(entries) - protected == Paths(rest) - protected;
      } else {
        ExcessCount(rest, protected, if room > 0 then room - 1 else 0);
        assert Paths(entries) - protected == {path} + (Paths(rest) - protected);
      }
    }
  }

  /** Of unprotected directories, none that stays is older than one that goes. */
  lemma {:induction false} ExcessIsOldest(entries: seq<Entry>, protected: set<Name>, room: nat, i: nat, j: nat)
    requires DistinctPaths(entries) && SortedBy(entries, NewestFirst) && i < |entries| && j < |entries|
    requires entries[i].path !in protected && entries[i].path !in Excess(entries, protected, room)
    requires entries[j].path in Excess(entries, protected, room)
    ensures entries[i].modified >= entries[j].modified
  {
    ExcessCount(entries, protected, room);
    PathsMember(entries, entries[i].path);
    var rest := entries[1..];
    PathsMember(rest, entries[0].path);
    ExcessCount(rest, protected, if room > 0 then room - 1 else 0);
    ExcessCount(rest, protected, room);
    if i > j {
      if j == 0 {
        assert false;
      } else {
        assert rest[i - 1] == entries[i] && rest[j - 1] == entries[j];
        var left := if entries[0].path in protected || room == 0 then room else room - 1;
        ExcessIsOldest(rest, protected, left, i - 1, j - 1);
      }
    }
  }

  lemma PathsOfPrefix(entries: seq<Entry>, protected: set<Name>, i: nat)
    requires DistinctPaths(entries) && 0 < i < |entries|
    ensures |Paths(entries[..i]) - protected| ==
            |Paths(entries[1..][..i - 1]) - protected| + if entries[0].path in protected then 0 else 1
  {
    var path, before := entries[0].path, entries[1..][..i - 1];
    assert entries[..i][1..] == before;
    PathsMember(before, path);
    if path in protected {
      assert Paths(entries[..i]) - protected == Paths(before) - protected;
    } else {
      assert Paths(entries[..i]) - protected == {path} + (Paths(before) - protected);
    }
  }

  lemma FirstSurvivesIff(entries: seq<Entry>, protected: set<Name>, room: nat)
    requires DistinctPaths(entries) && entries != [] && entries[0].path !in protected
    ensures entries[0].path !in Excess(entries, protected, room) <==> room > 0
  {
    if room > 0 {
      ExcessCount(entries[1..], protected, room - 1);
      PathsMember(entries[1..], entries[0].path);
    }
  }

  /** An unprotected directory stays if and only if fewer than `room` unprotected ones come before it. */
  lemma {:induction false} SurvivesIff(entries: seq<Entry>, protected: set<Name>, room: nat, i: nat)
    requires DistinctPaths(entries) && i < |entries| && entries[i].path !in protected
    ensures entries[i].path !in Excess(entries, protected, room) <==> |Paths(entries[..i]) - protected| < room
  {
    if i == 0 {
      FirstSurvivesIff(entries, protected, room);
      assert Paths(entries[..0]) - protected == {};
    } else {
      var left := if entries[0].path in protected || room == 0 then room else room - 1;
      assert entries[1..][i - 1] == entries[i] && entries[0].path != entries[i].path;
      PathsOfPrefix(entries, protected, i);
      SurvivesIff(entries[1..], protected, left, i - 1);
    }
  }

  lemma ListedPaths(listing: seq<Entry>, dirs: map<Name, Dir>)
    requires Lists(listing, dirs)
    ensures Paths(listing) == dirs.Keys
  {
    forall n
      ensures n in Paths(listing) <==> n in dirs
    {
      PathsMember(listing, n);
      if n in dirs {
        assert Entry(dirs[n].modified, n) in listing;
      }
    }
  }

  /** Every kept directory is at least as new as every removed one. */
  ghost predicate NewestKept(dirs: map<Name, Dir>, kept: set<Name>, gone: set<Name>)
    requires kept <= dirs.Keys && gone <= dirs.Keys
  {
    forall k, g :: k in kept && g in gone ==> dirs[k].modified >= dirs[g].modified
  }

  /** What a complete loop over a sorted listing removes, in terms of the directories. */
  lemma ExcessOfListing(directories: seq<Entry>, readable: map<Name, Dir>, protected: set<Name>, room: nat)
    requires Lists(directories, readable) && SortedBy(directories, NewestFirst)
    ensures var excess := Excess(directories, protected, room);
            && excess <= readable.Keys - protected
            && |readable.Keys - protected| == |excess| + Min(|readable.Keys - protected|, room)
            && NewestKept(readable, readable.Keys - protected - excess, excess)
  {
    ListedPaths(directories, readable);
    ExcessCount(directories, protected, room);
    var excess := Excess(directories, protected, room);
    forall k, g | k in readable.Keys - protected - excess && g in excess
      ensures readable[k].modified >= readable[g].modified
    {
      PathsMember(directories, k);
      PathsMember(directories, g);
      var i: nat :| i < |directories| && directories[i].path == k;
      var j: nat :| j < |directories| && directories[j].path == g;
      ExcessIsOldest(directories, protected, room, i, j);
    }
  }

  lemma NewestOfReadable(before: map<Name, Dir>, unreadable: set<Name>, kept: set<Name>, gone: set<Name>)
    requires kept <= (before - unreadable).Keys && gone <= (before - unreadable).Keys
    requires NewestKept(before - unreadable, kept, gone)
    ensures NewestKept(before, kept, gone)
  {
    forall k, g | k in kept && g in gone
      ensures before[k].modified >= before[g].modified
    {
      assert (before - unreadable)[k] == before[k] && (before - unreadable)[g] == before[g];
    }
  }

  lemma KeptAccount(all: set<Name>, unreadable: set<Name>, protected: set<Name>, removed: set<Name>)
    requires removed <= all - unreadable - protected
    ensures all - removed - unreadable - protected == all - unreadable - protected - removed
    ensures |all - removed - unreadable - protected| == |all - unreadable - protected| - |removed|
  {
    SizeOfRest(all - unreadable - protected, removed);
    assert all - removed - unreadable - protected == all - unreadable - protected - removed;
  }

  /** What a whole pruning of `before` leaves, when it removes exactly the excess of its listing. */
  lemma PruneOutcome(directories: seq<Entry>, before: map<Name, Dir>, unreadable: set<Name>, protected: set<Name>,
                     room: nat)
    requires Lists(directories, before - unreadable) && SortedBy(directories, NewestFirst)
    ensures var excess := Excess(directories, protected, room);
            var candidates := before.Keys - unreadable - protected;
            && excess <= candidates
            && |candidates - excess| == Min(|candidates|, room)
            && NewestKept(before, candidates - excess, excess)
  {
    var readable, excess := before - unreadable, Excess(directories, protected, room);
    assert readable.Keys == before.Keys - unreadable;
    ExcessOfListing(directories, readable, protected, room);
    SizeOfRest(readable.Keys - protected, excess);
    NewestOfReadable(before, unreadable, readable.Keys - protected - excess, excess);
  }

  lemma KeysAfter(before: map<Name, Dir>, removed: set<Name>)
    requires removed <= before.Keys
    ensures (before - removed).Keys == before.Keys - removed
    ensures before.Keys - (before - removed).Keys == removed
  {
  }

  /** Kept and removed, read off the directories before and after a loop that removed some of the excess. */
  lemma PruneEnds(directories: seq<Entry>, before: map<Name, Dir>, unreadable: set<Name>, protected: set<Name>,
                  room: nat,
                  removed: set<Name>, after: map<Name, Dir>)
    requires Lists(directories, before - unreadable) && SortedBy(directories, NewestFirst)
    requires removed <= Excess(directories, protected, room) && after == before - removed
    ensures protected * before.Keys <= after.Keys && unreadable * before.Keys <= after.Keys
    ensures removed == Excess(directories, protected, room) ==>
              && |after.Keys - unreadable - protected| == Min(|before.Keys - unreadable - protected|, room)
              && NewestKept(before, after.Keys - unreadable - protected, before.Keys - after.Keys)
  {
    PruneOutcome(directories, before, unreadable, protected, room);
    KeptAccount(before.Keys, unreadable, protected, removed);
    KeysAfter(before, removed);
  }

  /** The pair as far as its links can be read. */
  function Seen(link: Pair, seesCurrent: bool, seesPrevious: bool): Pair {
    Pair(if seesCurrent then link.current else None, if seesPrevious then link.previous else None)
  }

  /** One round over what is there. `complete` when it did not give up and every entry could be read. */
  method PruneGenerations(found: map<Name, Dir>, link: Pair, seesCurrent: bool, seesPrevious: bool, keep: nat)
    returns (left: map<Name, Dir>, ghost complete: bool)
    ensures forall n :: n in left ==> n in found && left[n] == found[n]
    ensures Seen(link, seesCurrent, seesPrevious).Targets() * found.Keys <= left.Keys
    ensures complete && Seen(link, seesCurrent, seesPrevious).Targets() <= found.Keys ==>
              |left| == Min(|found|, Max(keep, |Seen(link, seesCurrent, seesPrevious).Targets()|))
  {
    var root := new GenerationRoot(found);
    var unreadable: set<Name> := *;
    var ok := root.Prune(link, seesCurrent, seesPrevious, keep, unreadable);
    left, complete := root.dirs, ok && unreadable == {};
  }

  class GenerationRoot {
    var dirs: map<Name, Dir>

    constructor (found: map<Name, Dir>)
      ensures dirs == found
    {
      dirs := found;
    }

    /**
     Directory order is the operating system's choice; entries whose type cannot be
     read are skipped. A modification time that cannot be read is the epoch.
     */
    method ReadDir(unreadable: set<Name>) returns (listing: seq<Entry>)
      ensures Lists(listing, dirs - unreadable)
    {
      var readable := dirs - unreadable;
      var left := readable.Keys;
      listing := [];
      while left != {}
        invariant left <= readable.Keys
        invariant Lists(listing, readable - left)
        decreases left
      {
        var path :| path in left;
        ghost var done := readable - left;
        left := left - {path};
        var entry := Entry(readable[path].modified, path);
        assert entry in listing + [entry];
        forall n | n in readable - left && n != path
          ensures Entry(readable[n].modified, n) in listing
        {
          assert n in done && done[n] == readable[n];
        }
        listing := listing + [entry];
      }
      assert readable - left == readable;
    }

    /**
     `ok` is false when the root cannot be read or a directory cannot be removed; the loop
     then stops where it is. Every caller discards that error. A pointer that cannot be read
     protects nothing: `Seen` is what is left of the pair.
     */
    method Prune(link: Pair, seesCurrent: bool, seesPrevious: bool, keep: nat, unreadable: set<Name>) returns (ok: bool)
      modifies this
      ensures forall n :: n in dirs ==> n in old(dirs) && dirs[n] == old(dirs)[n]
      ensures var protected := Seen(link, seesCurrent, seesPrevious).Targets();
              && protected * old(dirs).Keys <= dirs.Keys
              && unreadable * old(dirs).Keys <= dirs.Keys
              && (ok ==> |dirs.Keys - unreadable - protected| ==
                         Min(|old(dirs).Keys - unreadable - protected|, SaturatingSub(keep, |protected|)))
              && (ok ==> NewestKept(old(dirs), dirs.Keys - unreadable - protected, old(dirs).Keys - dirs.Keys))
              && (ok && unreadable == {} && protected <= old(dirs).Keys ==>
                    |dirs| == Min(|old(dirs)|, Max(keep, |protected|)))
    {
      ok := *;
      if !ok { return; }
      var protected := Seen(link, seesCurrent, seesPrevious).Targets();
      var additionalLimit := SaturatingSub(keep, |protected|);
      var listing := ReadDir(unreadable);
      var directories := Sort(listing, NewestFirst);
      SortedListing(listing, dirs - unreadable);
      SortOrders(listing, NewestFirst);
      ghost var removed;
      ok, removed := RemoveExcess(directories, protected, additionalLimit);
      PruneEnds(directories, old(dirs), unreadable, protected, additionalLimit, removed, dirs);
      if ok && unreadable == {} && protected <= old(dirs).Keys {
        WithoutNone(old(dirs).Keys);
        WithoutNone(dirs.Keys);
        ListedCount(old(dirs), dirs, protected, keep);
      }
    }

    /** The loop over the sorted listing; it stops at the first directory that cannot be removed. */
    method RemoveExcess(directories: seq<Entry>, protected: set<Name>, additionalLimit: nat)
      returns (ok: bool, ghost removed: set<Name>)
      modifies this
      ensures dirs == old(dirs) - removed
      ensures removed <= Excess(directories, protected, additionalLimit)
      ensures ok ==> removed == Excess(directories, protected, additionalLimit)
    {
      ok := true;
      removed := {};
      var retainedAdditional := 0;
      for i := 0 to |directories|
        invariant ok && dirs == old(dirs) - removed
        invariant retainedAdditional <= additionalLimit
        invariant removed + Excess(directories[i..], protected, additionalLimit - retainedAdditional) ==
                  Excess(directories, protected, additionalLimit)
      {
        assert directories[i..][1..] == directories[i + 1..];
        var path := directories[i].path;
        if path in protected {
          continue;
        }
        if retainedAdditional < additionalLimit {
          retainedAdditional := retainedAdditional + 1;
          continue;
        }
        ok := *;
        if !ok { return; }
        MinusOneMore(old(dirs), removed, path);
        dirs := dirs - {path};
        removed := removed + {path};
      }
    }
  }

  /** With every entry readable and both targets listed, the count follows. */
  lemma PruneCount(before: set<Name>, after: set<Name>, protected: set<Name>, keep: nat)
    requires after <= before && protected <= after
    requires |after - protected| == Min(|before - protected|, SaturatingSub(keep, |protected|))
    ensures |after| == Min(|before|, Max(keep, |protected|))
  {
    SizeOfRest(after, protected);
    SizeOfRest(before, protected);
  }

  lemma ListedCount(before: map<Name, Dir>, after: map<Name, Dir>, protected: set<Name>, keep: nat)
    requires after.Keys <= before.Keys && protected <= after.Keys
    requires |after.Keys - protected| == Min(|before.Keys - protected|, SaturatingSub(keep, |protected|))
    ensures |after| == Min(|before|, Max(keep, |protected|))
  {
    PruneCount(before.Keys, after.Keys, protected, keep);
    assert |after| == |after.Keys| && |before| == |before.Keys|;
  }

  lemma WithoutNone(names: set<Name>)
    ensures names - {} == names
  {
  }

  lemma SizeOfRest(all: set<Name>, part: set<Name>)
    requires part <= all
    ensures |all - part| == |all| - |part|
  {
    assert all == (all - part) + part;
  }
}
