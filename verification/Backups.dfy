/** The snapshot directory: listing, pruning, and the nightly scheduler on top of them. */
module Backups {
  import opened Wrappers
  import opened BackupNames

  const DAY := 24 * 60 * 60

  /** File name to modification time, in seconds. */
  type Files = map<string, int>

  datatype Snap = Snap(filename: string, reason: string, tag: string, createdAt: int)

  predicate OfReason(name: string, reason: string) {
    IsDump(name) && ParseFilename(name).0 == reason
  }

  function SnapOf(files: Files, name: string): Snap
    requires name in files
  {
    Snap(name, ParseFilename(name).0, ParseFilename(name).1, files[name])
  }

  predicate NewestFirst(snaps: seq<Snap>) {
    forall i, j | 0 <= i < j < |snaps| :: snaps[i].createdAt >= snaps[j].createdAt
  }

  predicate NoFileTwice(snaps: seq<Snap>) {
    forall i, j | 0 <= i < j < |snaps| :: snaps[i].filename != snaps[j].filename
  }

  /** Every .dump file once, newest first. */
  ghost predicate IsFullListing(files: Files, snaps: seq<Snap>) {
    && NewestFirst(snaps) && NoFileTwice(snaps)
    && (forall i | 0 <= i < |snaps| ::
          snaps[i].filename in files && IsDump(snaps[i].filename) && snaps[i] == SnapOf(files, snaps[i].filename))
    && (forall name | name in files && IsDump(name) :: SnapOf(files, name) in snaps)
  }

  /** All files of one reason, newest first; files of one age in any order. */
  ghost predicate IsListing(files: Files, reason: string, list: seq<string>) {
    && (forall i | 0 <= i < |list| :: list[i] in files && OfReason(list[i], reason))
    && (forall i, j | 0 <= i < j < |list| :: list[i] != list[j] && files[list[i]] >= files[list[j]])
    && (forall name | name in files && OfReason(name, reason) :: name in list)
  }

  function Names(list: seq<string>): set<string> {
    set i | 0 <= i < |list| :: list[i]
  }

  ghost predicate IsNewest(files: Files, reason: string, at: Option<int>) {
    && (forall name | name in files && OfReason(name, reason) :: at.Some? && files[name] <= at.value)
    && (at.Some? ==> exists name :: name in files && OfReason(name, reason) && files[name] == at.value)
  }

  /** How reading the directory goes: it fails, or it skips the entries whose Info fails. */
  datatype Scan = NoScan | Scanned(unread: set<string>)

  /** The files a listing sees. Directories are not among the files in the first place. */
  function Seen(files: Files, scan: Scan): Files {
    if scan.NoScan? then map[] else files - scan.unread
  }

  /** What a prune has removed: nothing when it is turned off, cannot list or sees no more than `keep`;
      else what comes after the `keep` newest in a listing, all of it or up to the first stuck file. */
  ghost predicate PruneRan(files: Files, reason: string, keep: int, scan: Scan, stuck: set<string>, gone: set<string>) {
    var seen := Seen(files, scan);
    if keep <= 0 || scan.NoScan? || |OfReasonSet(seen, reason)| <= keep then gone == {}
    else
      exists list, cut | keep <= cut <= |list| ::
        IsListing(seen, reason, list) && gone == Names(list[keep..cut]) && gone !! stuck
        && (cut == |list| || list[cut] in stuck)
  }

  /** How pg_dump and the steps after it can end. A failed dump is removed, or else left behind
      when removing it fails too, if it had been created at all. */
  datatype Dump = NoPgDump | FailedAndRemoved | FailedAndLeft(created: bool) | StatFailed | Dumped

  function AfterDump(files: Files, name: string, written: int, dump: Dump): Files {
    match dump
    case NoPgDump => files
    case FailedAndRemoved => files - {name}
    case FailedAndLeft(created) => if created then files[name := written] else files
    case StatFailed => files[name := written]
    case Dumped => files[name := written]
  }

  /** Puts one more snapshot in its place behind all that are at least as new. */
  method Place(sorted: seq<Snap>, x: Snap) returns (r: seq<Snap>)
    requires NewestFirst(sorted) && NoFileTwice(sorted)
    requires forall s | s in sorted :: s.filename != x.filename
    ensures NewestFirst(r) && NoFileTwice(r)
    ensures exists p | 0 <= p <= |sorted| :: r == sorted[..p] + [x] + sorted[p..]
  {
    var p := 0;
    while p < |sorted| && sorted[p].createdAt >= x.createdAt
      invariant p <= |sorted|
      invariant forall k | 0 <= k < p :: sorted[k].createdAt >= x.createdAt
    {
      p := p + 1;
    }
    r := sorted[..p] + [x] + sorted[p..];
    forall i, j | 0 <= i < j < |r| ensures r[i].createdAt >= r[j].createdAt && r[i].filename != r[j].filename {
      var a, b := if i < p then i else i - 1, if j < p then j else j - 1;
      assert i != p ==> r[i] == sorted[a];
      assert j != p ==> r[j] == sorted[b];
      assert p < |sorted| && i == p ==> sorted[p].createdAt >= sorted[b].createdAt;
    }
  }

  method SortNewestFirst(snaps: seq<Snap>) returns (sorted: seq<Snap>)
    requires NoFileTwice(snaps)
    ensures |sorted| == |snaps| && NewestFirst(sorted) && NoFileTwice(sorted)
    ensures forall s :: s in sorted <==> s in snaps
  {
    sorted := [];
    for i := 0 to |snaps|
      invariant |sorted| == i && NewestFirst(sorted) && NoFileTwice(sorted)
      invariant forall s :: s in sorted <==> s in snaps[..i]
    {
      var x := snaps[i];
      forall s | s in sorted ensures s.filename != x.filename {
        assert s in snaps[..i];
      }
      var next := Place(sorted, x);
      var p :| 0 <= p <= |sorted| && next == sorted[..p] + [x] + sorted[p..];
      assert sorted == sorted[..p] + sorted[p..] && snaps[..i + 1] == snaps[..i] + [x];
      sorted := next;
    }
    assert snaps[..|snaps|] == snaps;
  }

  /** The positions below `i` that hold a snapshot of the reason, in order. */
  ghost predicate Picked(all: seq<Snap>, reason: string, from: seq<nat>, i: nat) {
    && (forall k | 0 <= k < |from| :: from[k] < |all| && from[k] < i && all[from[k]].reason == reason)
    && (forall j, k | 0 <= j < k < |from| :: from[j] < from[k])
    && (forall n: nat | n < i && n < |all| && all[n].reason == reason :: n in from)
  }

  lemma PickOneMore(all: seq<Snap>, reason: string, from: seq<nat>, i: nat)
    requires Picked(all, reason, from, i) && i < |all| && all[i].reason == reason
    ensures Picked(all, reason, from + [i], i + 1)
  {
    var more := from + [i];
    assert more[|from|] == i;
    forall n: nat | n < i + 1 && n < |all| && all[n].reason == reason ensures n in more {
      assert n < i ==> n in from;
    }
  }

  lemma PickedIsListing(files: Files, all: seq<Snap>, reason: string, from: seq<nat>, list: seq<string>)
    requires IsFullListing(files, all)
    requires Picked(all, reason, from, |all|) && |list| == |from|
    requires forall k | 0 <= k < |list| :: list[k] == all[from[k]].filename
    ensures IsListing(files, reason, list)
  {
    forall j, k | 0 <= j < k < |list| ensures list[j] != list[k] && files[list[j]] >= files[list[k]] {
      var a, b := from[j], from[k];
      assert all[a].filename != all[b].filename && all[a].createdAt >= all[b].createdAt;
    }
    forall name | name in files && OfReason(name, reason) ensures name in list {
      var s := SnapOf(files, name);
      var n: nat :| n < |all| && all[n] == s;
      assert n in from;
      var k :| 0 <= k < |from| && from[k] == n;
      assert list[k] == name;
    }
  }

  /** The first snapshot of a reason in a listing is the newest of that reason. */
  lemma FirstIsNewest(files: Files, all: seq<Snap>, reason: string, i: nat)
    requires IsFullListing(files, all) && i <= |all|
    requires forall k | 0 <= k < i :: all[k].reason != reason
    requires i < |all| ==> all[i].reason == reason
    ensures IsNewest(files, reason, if i < |all| then Some(all[i].createdAt) else None)
  {
    hide ParseFilename, IsDump;
    forall name | name in files && OfReason(name, reason) ensures i < |all| && files[name] <= all[i].createdAt {
      var s := SnapOf(files, name);
      var k :| 0 <= k < |all| && all[k] == s;
      assert k >= i;
    }
    if i < |all| {
      var name := all[i].filename;
      assert all[i] == SnapOf(files, name) && OfReason(name, reason) && files[name] == all[i].createdAt;
    }
  }

  class Directory {
    var files: Files

    constructor (files: Files)
      ensures this.files == files
    {
      this.files := files;
    }

    /** Every .dump file that can be read once, newest first; `None` when the directory cannot be. */
    method List(scan: Scan) returns (r: Option<seq<Snap>>)
      ensures r.Some? <==> scan.Scanned?
      ensures r.Some? ==> IsFullListing(Seen(files, scan), r.value)
    {
      if scan.NoScan? {
        return None;
      }
      var readable := files - scan.unread;
      var snaps := ListReadable(readable);
      return Some(snaps);
    }

    /** The loop over the entries that have an Info. */
    static method ListReadable(files: Files) returns (snaps: seq<Snap>)
      ensures IsFullListing(files, snaps)
    {
      var entries := files.Keys;
      var found: seq<Snap> := [];
      while entries != {}
        invariant entries <= files.Keys && NoFileTwice(found)
        invariant forall i | 0 <= i < |found| :: found[i].filename in files.Keys - entries
        invariant forall i | 0 <= i < |found| ::
                    IsDump(found[i].filename) && found[i] == SnapOf(files, found[i].filename)
        invariant forall name | name in files.Keys - entries && IsDump(name) :: SnapOf(files, name) in found
        decreases |entries|
      {
        var name :| name in entries;
        entries := entries - {name};
        if IsDump(name) {
          ghost var was := found;
          found := found + [SnapOf(files, name)];
          assert forall s | s in was :: s in found;
          assert found[|was|] == SnapOf(files, name);
        }
      }
      snaps := SortNewestFirst(found);
      forall i | 0 <= i < |snaps|
        ensures snaps[i].filename in files && IsDump(snaps[i].filename) && snaps[i] == SnapOf(files, snaps[i].filename)
      {
        var s := snaps[i];
        assert s in found;
      }
    }

    /** Removes what is beyond the `keep` newest of a reason, newest of those first, up to the first
        file that cannot be removed. */
    method Prune(reason: string, keep: int, scan: Scan, stuck: set<string>)
      returns (failed: bool, removed: seq<string>)
      modifies this
      ensures keep <= 0 || scan.NoScan? ==> failed && removed == [] && files == old(files)
      ensures files == old(files) - Names(removed) && Names(removed) !! stuck
      ensures keep > 0 && scan.Scanned? ==>
                exists list :: IsListing(Seen(old(files), scan), reason, list)
                  && (!failed ==> removed == if |list| <= keep then [] else list[keep..])
                  && (failed ==> |list| > keep && removed < list[keep..] && list[keep + |removed|] in stuck)
      ensures PruneRan(old(files), reason, keep, scan, stuck, Names(removed))
    {
      hide ParseFilename, IsDump, PruneRan;
      NothingPruned(files, reason, keep, scan, stuck);
      removed := [];
      if keep <= 0 {
        return true, [];
      }
      var all := List(scan);
      if all.None? {
        return true, [];
      }
      var ofReason := FilterReason(Seen(files, scan), all.value, reason);
      ghost var list, before := ofReason, files;
      ListSize(Seen(files, scan), reason, list);
      if |ofReason| <= keep {
        return false, [];
      }
      var excess := ofReason[keep..];
      for i := 0 to |excess|
        invariant removed == excess[..i] && files == old(files) - Names(removed) && Names(removed) !! stuck
      {
        if excess[i] in stuck {
          assert ofReason[keep + |removed|] == excess[i];
          assert removed < excess;
          CutPruned(before, reason, keep, scan, stuck, list, keep + i, removed);
          return true, removed;
        }
        files := files - {excess[i]};
        removed := removed + [excess[i]];
        assert removed == excess[..i + 1] && Names(removed) == Names(excess[..i]) + {excess[i]} by {
          NamesGrow(excess[..i], excess[i]);
          assert excess[..i + 1] == excess[..i] + [excess[i]];
        }
      }
      assert excess[..|excess|] == excess;
      CutPruned(before, reason, keep, scan, stuck, list, |list|, removed);
      return false, removed;
    }

    /** The names of one reason in a listing, in its order. */
    static method FilterReason(files: Files, all: seq<Snap>, reason: string) returns (list: seq<string>)
      requires IsFullListing(files, all)
      ensures IsListing(files, reason, list)
    {
      hide ParseFilename, IsDump;
      list := [];
      ghost var from: seq<nat> := [];
      for i := 0 to |all|
        invariant |from| == |list| && Picked(all, reason, from, i)
        invariant forall k | 0 <= k < |list| :: list[k] == all[from[k]].filename
      {
        if all[i].reason == reason {
          list := list + [all[i].filename];
          PickOneMore(all, reason, from, i);
          from := from + [i];
        }
      }
      PickedIsListing(files, all, reason, from, list);
    }

    /** One pg_dump run; `lowered` is the label in lower case. */
    method Snapshot(stamp: string, reason: string, lowered: string, written: int, dump: Dump) returns (ok: bool)
      modifies this
      ensures files == AfterDump(old(files), FileName(stamp, reason, Sanitized(lowered)), written, dump)
      ensures ok <==> dump.Dumped?
    {
      if dump.NoPgDump? {
        return false;
      }
      var safe := SanitizeLabel(lowered);
      var name := FileName(stamp, reason, safe);
      if dump.FailedAndRemoved? {
        files := files - {name};
        return false;
      }
      if dump.FailedAndLeft? {
        if dump.created {
          files := files[name := written];
        }
        return false;
      }
      files := files[name := written];
      return dump.Dumped?;
    }
  }

  lemma NothingPruned(files: Files, reason: string, keep: int, scan: Scan, stuck: set<string>)
    ensures keep <= 0 || scan.NoScan? || |OfReasonSet(Seen(files, scan), reason)| <= keep ==>
              PruneRan(files, reason, keep, scan, stuck, Names([]))
  {
    assert Names([]) == {};
  }

  lemma ListSize(files: Files, reason: string, list: seq<string>)
    requires IsListing(files, reason, list)
    ensures |OfReasonSet(files, reason)| == |list|
  {
    hide OfReason;
    ListingIsSet(files, reason, list, {});
    DistinctNames(list);
  }

  lemma CutPruned(files: Files, reason: string, keep: int, scan: Scan, stuck: set<string>, list: seq<string>, cut: int,
                  removed: seq<string>)
    requires 0 < keep < |list| && keep <= cut <= |list| && scan.Scanned? && IsListing(Seen(files, scan), reason, list)
    requires removed == list[keep..][..cut - keep] && Names(removed) !! stuck
    requires cut == |list| || list[cut] in stuck
    ensures PruneRan(files, reason, keep, scan, stuck, Names(removed))
  {
    hide IsListing;
    ListSize(Seen(files, scan), reason, list);
    assert removed == list[keep..cut];
  }

  lemma NamesGrow(list: seq<string>, name: string)
    ensures Names(list + [name]) == Names(list) + {name}
  {
    var more := list + [name];
    assert forall i | 0 <= i < |list| :: more[i] == list[i];
    assert more[|list|] == name;
  }

  // ---- what a prune keeps ----------------------------------------------------

  ghost function OfReasonSet(files: Files, reason: string): set<string> {
    set name | name in files && OfReason(name, reason)
  }

  lemma {:induction false} DistinctNames(list: seq<string>)
    requires forall i, j | 0 <= i < j < |list| :: list[i] != list[j]
    ensures |Names(list)| == |list|
  {
    if list != [] {
      var front, last := list[..|list| - 1], list[|list| - 1];
      DistinctNames(front);
      NamesGrow(front, last);
      assert list == front + [last];
      assert last !in Names(front);
    }
  }

  lemma NamesAppend(a: seq<string>, b: seq<string>)
    ensures Names(a + b) == Names(a) + Names(b)
  {
    var c := a + b;
    assert forall i | 0 <= i < |a| :: c[i] == a[i];
    assert forall i | 0 <= i < |b| :: c[|a| + i] == b[i];
  }

  lemma CutNames(list: seq<string>, keep: nat)
    requires keep <= |list| && forall i, j | 0 <= i < j < |list| :: list[i] != list[j]
    ensures Names(list) == Names(list[..keep]) + Names(list[keep..]) && Names(list[..keep]) !! Names(list[keep..])
    ensures |Names(list)| == |list| && |Names(list[..keep])| == keep
  {
    DistinctNames(list);
    DistinctNames(list[..keep]);
    NamesAppend(list[..keep], list[keep..]);
    assert list == list[..keep] + list[keep..];
    PartsDisjoint(list, keep);
  }

  lemma PartsDisjoint(list: seq<string>, keep: nat)
    requires keep <= |list| && forall i, j | 0 <= i < j < |list| :: list[i] != list[j]
    ensures Names(list[..keep]) !! Names(list[keep..])
  {
    forall m, n | m in Names(list[..keep]) && n in Names(list[keep..]) ensures m != n {
      var i :| 0 <= i < keep && list[..keep][i] == m;
      var j :| 0 <= j < |list| - keep && list[keep..][j] == n;
      assert list[i] == m && list[keep + j] == n;
    }
  }

  lemma CutList(files: Files, list: seq<string>, keep: nat)
    requires forall i | 0 <= i < |list| :: list[i] in files
    requires forall i, j | 0 <= i < j < |list| :: list[i] != list[j] && files[list[i]] >= files[list[j]]
    ensures var gone := Names(if |list| <= keep then [] else list[keep..]);
            && |Names(list)| == |list|
            && gone <= Names(list)
            && Names(list) - (Names(list) - gone) == gone
            && |Names(list) - gone| == (if |list| <= keep then |list| else keep)
            && (forall m, n | m in Names(list) - gone && n in gone :: m in files && n in files && files[m] >= files[n])
  {
    if |list| <= keep {
      DistinctNames(list);
      assert Names(list) - Names([]) == Names(list);
    } else {
      CutNames(list, keep);
      assert Names(list) - Names(list[keep..]) == Names(list[..keep]);
      forall m, n | m in Names(list[..keep]) && n in Names(list[keep..])
        ensures m in files && n in files && files[m] >= files[n]
      {
        var i :| 0 <= i < keep && list[..keep][i] == m;
        var j :| 0 <= j < |list| - keep && list[keep..][j] == n;
        assert list[i] == m && list[keep + j] == n;
      }
    }
  }

  lemma ListingIsSet(files: Files, reason: string, list: seq<string>, gone: set<string>)
    requires IsListing(files, reason, list)
    ensures OfReasonSet(files, reason) == Names(list)
    ensures OfReasonSet(files - gone, reason) == Names(list) - gone
  {
    assert OfReasonSet(files, reason) == Names(list);
  }

  /** A prune that ends well leaves exactly the `keep` newest files of its reason - all of them when
      there are no more - and every file of another reason. */
  lemma PruneKeepsNewest(files: Files, reason: string, list: seq<string>, keep: int)
    requires keep > 0 && IsListing(files, reason, list)
    ensures var gone := Names(if |list| <= keep then [] else list[keep..]);
            var before, after := OfReasonSet(files, reason), OfReasonSet(files - gone, reason);
            && |after| == (if |before| <= keep then |before| else keep)
            && before - after == gone
            && (forall m, n | m in after && n in gone :: m in files && n in files && files[m] >= files[n])
  {
    var gone := Names(if |list| <= keep then [] else list[keep..]);
    CutList(files, list, keep);
    ListingIsSet(files, reason, list, gone);
  }

  lemma AllSeen(files: Files)
    ensures Seen(files, Scanned({})) == files
  {
  }

  /** A prune that saw every file and was stopped by none leaves as many of the reason as it keeps, or
      all there were, and nothing it removed is newer than anything it left. */
  lemma PruneRanKeepsNewest(files: Files, reason: string, keep: int, gone: set<string>)
    requires keep > 0 && PruneRan(files, reason, keep, Scanned({}), {}, gone)
    ensures var before, after := OfReasonSet(files, reason), OfReasonSet(files - gone, reason);
            && |after| == (if |before| <= keep then |before| else keep)
            && before - after == gone
            && (forall m, n | m in after && n in gone :: m in files && n in files && files[m] >= files[n])
  {
    hide IsListing, OfReason;
    AllSeen(files);
    if |OfReasonSet(files, reason)| <= keep {
      assert files - {} == files;
    } else {
      var list, cut :| keep <= cut <= |list| && IsListing(files, reason, list) && gone == Names(list[keep..cut])
          && cut == |list|;
      ListSize(files, reason, list);
      assert list[keep..cut] == list[keep..];
      PruneKeepsNewest(files, reason, list, keep);
    }
  }

  /** The listing a prune that removed something went by, and how far it came. */
  lemma WhereCut(files: Files, reason: string, keep: int, scan: Scan, stuck: set<string>, gone: set<string>)
    returns (list: seq<string>, cut: int)
    requires PruneRan(files, reason, keep, scan, stuck, gone) && gone != {}
    ensures 0 < keep <= cut <= |list| && keep < |list| && IsListing(Seen(files, scan), reason, list)
    ensures gone == Names(list[keep..cut])
  {
    hide IsListing, OfReasonSet;
    list, cut :| keep <= cut <= |list| && IsListing(Seen(files, scan), reason, list) && gone == Names(list[keep..cut])
        && gone !! stuck && (cut == |list| || list[cut] in stuck);
    ListSize(Seen(files, scan), reason, list);
  }

  /** Whatever is in its way, a prune removes only files it saw of its reason, none of them stuck; and
      if it leaves more of those than it keeps, a stuck one is among them, no newer than any removed. */
  lemma PruneStopsAtStuck(files: Files, reason: string, keep: int, scan: Scan, stuck: set<string>, gone: set<string>)
    requires keep > 0 && PruneRan(files, reason, keep, scan, stuck, gone)
    ensures var seen := Seen(files, scan);
            var left := OfReasonSet(seen, reason) - gone;
            && gone <= OfReasonSet(seen, reason) && gone !! stuck
            && (|left| > keep ==>
                  exists s | s in left :: s in stuck && s in seen
                    && forall g | g in gone :: g in seen && seen[g] >= seen[s])
  {
    var seen := Seen(files, scan);
    if scan.Scanned? && |OfReasonSet(seen, reason)| > keep {
      var list, cut :| keep <= cut <= |list| && IsListing(seen, reason, list) && gone == Names(list[keep..cut])
          && gone !! stuck && (cut == |list| || list[cut] in stuck);
      StoppedAtCut(seen, reason, keep, list, cut, gone);
    } else {
      assert OfReasonSet(seen, reason) - gone == OfReasonSet(seen, reason);
    }
  }

  lemma StoppedAtCut(seen: Files, reason: string, keep: int, list: seq<string>, cut: int, gone: set<string>)
    requires 0 < keep <= cut <= |list| && IsListing(seen, reason, list) && gone == Names(list[keep..cut])
    ensures gone <= OfReasonSet(seen, reason)
    ensures cut == |list| ==> |OfReasonSet(seen, reason) - gone| == keep
    ensures cut < |list| ==> list[cut] in OfReasonSet(seen, reason) - gone && list[cut] in seen
    ensures cut < |list| ==> forall g | g in gone :: g in seen && seen[g] >= seen[list[cut]]
  {
    hide OfReason;
    ListingIsSet(seen, reason, list, gone);
    forall g | g in gone ensures g in Names(list) && g in seen && (cut < |list| ==>
                                   g != list[cut] && seen[g] >= seen[list[cut]]) {
      var j :| 0 <= j < cut - keep && list[keep..cut][j] == g;
      assert list[keep + j] == g;
    }
    if cut == |list| {
      assert list[keep..cut] == list[keep..];
      CutNames(list, keep);
      assert Names(list) - gone == Names(list[..keep]);
    } else {
      assert list[cut] in Names(list);
    }
  }

  /** What each way a dump can end leaves: a file of this time when it ended well, could not be looked up or
      could not be removed once created; none under the name when it was removed; and nothing changes
      when there is no pg_dump, or it created nothing. Other files stay as they are. */
  lemma DumpLeaves(files: Files, name: string, written: int, dump: Dump)
    ensures var after := AfterDump(files, name, written, dump);
            && (forall other | other != name :: other in after <==> other in files)
            && (forall other | other in after && other != name :: after[other] == files[other])
            && (dump.Dumped? || dump.StatFailed? || dump == FailedAndLeft(true) ==>
                  name in after && after[name] == written)
            && (dump.FailedAndRemoved? ==> name !in after)
            && (dump.NoPgDump? || dump == FailedAndLeft(false) ==> after == files)
  {
  }
}
