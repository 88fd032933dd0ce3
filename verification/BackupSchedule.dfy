/** The nightly scheduler: one tick, and the 24 hour cadence over every run of ticks and restarts. */
module BackupSchedule {
  import opened Wrappers
  import opened BackupNames
  import opened Backups

  datatype Config = Config(nightlyEnabled: bool, nightlyKeep: int)

  /** When one tick looks at the clock: for the first and second check, for the file name, the time
      the dump is written, and the time recorded afterwards. */
  datatype Times = Times(first: int, second: int, named: int, written: int, done: int)

  predicate Monotone(t: Times) {
    t.first <= t.second <= t.named <= t.written <= t.done
  }

  /** What a prune may have removed, whether it ended well or stopped at a file it could not remove. */
  ghost predicate MayRemove(files: Files, reason: string, keep: int, gone: set<string>) {
    gone == {} || (keep > 0 && exists scan: Scan, list ::
                     IsListing(Seen(files, scan), reason, list) && |list| > keep && gone <= Names(list[keep..]))
  }

  lemma RanMayRemove(files: Files, reason: string, keep: int, scan: Scan, stuck: set<string>, gone: set<string>)
    requires PruneRan(files, reason, keep, scan, stuck, gone)
    ensures MayRemove(files, reason, keep, gone)
  {
    hide PruneRan, IsListing, Names, Seen;
    if gone != {} {
      var list, cut := WhereCut(files, reason, keep, scan, stuck, gone);
      NamesAppend(list[keep..cut], list[cut..]);
      assert list[keep..] == list[keep..cut] + list[cut..];
    }
  }

  /** All that happens around one tick: the config read (`None` when it fails), the listing at start-up,
      the file name, the clock, how the dump ends, the listing of the prune and the files it cannot
      remove; and what the tick found on disk and what its prune removed. */
  datatype Tick = Tick(cfg: Option<Config>, scan: Scan, name: string, t: Times, dump: Dump, pruneScan: Scan,
                       stuck: set<string>, boot: Option<int>, gone: set<string>)

  predicate TooEarly(lastAt: Option<int>, now: int) {
    lastAt.Some? && now - lastAt.value < DAY
  }

  ghost predicate TickStep(files: Files, lastAt: Option<int>, e: Tick, files': Files, lastAt': Option<int>,
      took: bool) {
    if e.cfg.None? || !e.cfg.value.nightlyEnabled || TooEarly(lastAt, e.t.first) then
      files' == files && lastAt' == lastAt && !took
    else
      && (if lastAt.Some? then e.boot == lastAt else IsNewest(Seen(files, e.scan), NIGHTLY, e.boot))
      && if lastAt.None? && TooEarly(e.boot, e.t.second) then
           files' == files && lastAt' == e.boot && !took
         else
           var dumped := AfterDump(files, e.name, e.t.written, e.dump);
           if !e.dump.Dumped? then files' == dumped && lastAt' == e.boot && !took
           else
             && PruneRan(dumped, NIGHTLY, e.cfg.value.nightlyKeep, e.pruneScan, e.stuck, e.gone)
             && files' == dumped - e.gone && lastAt' == Some(e.t.done) && took
  }

  class Scheduler {
    const dir: Directory
    const versionTag: string
    var lastAt: Option<int>

    /** Every start of the process begins with a zero lastAt. */
    constructor (dir: Directory, versionTag: string)
      ensures this.dir == dir && this.versionTag == versionTag && lastAt == None
    {
      this.dir := dir;
      this.versionTag := versionTag;
      this.lastAt := None;
    }

    method RunTick(cfg: Option<Config>, scan: Scan, pruneScan: Scan, stamp: string, t: Times, dump: Dump,
        stuck: set<string>)
      returns (took: bool, ghost e: Tick)
      modifies this, dir
      ensures e.cfg == cfg && e.scan == scan && e.t == t && e.dump == dump
      ensures e.pruneScan == pruneScan && e.stuck == stuck
      ensures e.name == FileName(stamp, NIGHTLY, Sanitized(versionTag))
      ensures TickStep(old(dir.files), old(lastAt), e, dir.files, lastAt, took)
    {
      e := Tick(cfg, scan, FileName(stamp, NIGHTLY, Sanitized(versionTag)), t, dump, pruneScan, stuck, lastAt, {});
      if cfg.None? || !cfg.value.nightlyEnabled {
        return false, e;
      }
      if lastAt.Some? && t.first - lastAt.value < DAY {
        return false, e;
      }
      if lastAt.None? {
        Bootstrap(scan);
        e := e.(boot := lastAt);
        if lastAt.Some? && t.second - lastAt.value < DAY {
          return false, e;
        }
      }
      var ok := dir.Snapshot(stamp, NIGHTLY, versionTag, t.written, dump);
      if !ok {
        return false, e;
      }
      lastAt := Some(t.done);
      var failed, removed := dir.Prune(NIGHTLY, cfg.value.nightlyKeep, pruneScan, stuck);
      e := e.(gone := Names(removed));
      took := true;
      if removed == [] {
        assert Names(removed) == {};
      }
    }

    /** The newest nightly on disk, if there is one, becomes lastAt. */
    method Bootstrap(scan: Scan)
      requires lastAt == None
      modifies this
      ensures IsNewest(Seen(dir.files, scan), NIGHTLY, lastAt)
    {
      hide ParseFilename, IsDump;
      var listed := dir.List(scan);
      if listed.None? {
        return;
      }
      var list := listed.value;
      var i := 0;
      while i < |list|
        invariant i <= |list| && lastAt == None && IsFullListing(Seen(dir.files, scan), list)
        invariant forall k | 0 <= k < i :: list[k].reason != NIGHTLY
      {
        if list[i].reason == NIGHTLY {
          lastAt := Some(list[i].createdAt);
          break;
        }
        i := i + 1;
      }
      FirstIsNewest(Seen(dir.files, scan), list, NIGHTLY, i);
    }
  }

  // ---- every run -----------------------------------------------------------------

  /** Names made a day or more apart differ, and no stamp holds an underscore. */
  ghost predicate Stamping(stamp: int -> string) {
    (forall n: int :: '_' !in stamp(n)) && (forall a: int, b: int :: stamp(a) == stamp(b) ==> b - a < DAY)
  }

  /** `taken` lists the write times of all nightly snapshots that succeeded so far. */
  datatype State = State(files: Files, lastAt: Option<int>, clock: int, taken: seq<int>)

  datatype Event = Ticked(e: Tick, tag: string) | Restarted | Others

  predicate SameNightlies(files: Files, files': Files) {
    && (forall name | name in files && OfReason(name, NIGHTLY) :: name in files' && files'[name] == files[name])
    && (forall name | name in files' && OfReason(name, NIGHTLY) :: name in files)
  }

  /** A tick, a restart, or anything that leaves the nightly files alone. */
  ghost predicate Next(stamp: int -> string, s: State, ev: Event, s': State) {
    match ev
    case Ticked(e, tag) =>
      && s.clock <= e.t.first && Monotone(e.t) && e.scan == Scanned({})
      && e.name == FileName(stamp(e.t.named), NIGHTLY, tag)
      && exists took: bool ::
           && TickStep(s.files, s.lastAt, e, s'.files, s'.lastAt, took)
           && s'.taken == (if took then s.taken + [e.t.written] else s.taken) && s'.clock == e.t.done
    case Restarted => s' == s.(lastAt := None)
    case Others =>
      SameNightlies(s.files, s'.files) && s'.lastAt == s.lastAt && s'.taken == s.taken && s.clock <= s'.clock
  }

  ghost predicate WrittenBy(stamp: int -> string, name: string, upTo: int) {
    exists n: int :: n <= upTo && StampOf(name) == stamp(n)
  }

  predicate DayApart(taken: seq<int>) {
    forall i | 0 < i < |taken| :: taken[i] - taken[i - 1] >= DAY
  }

  ghost predicate OnDisk(stamp: int -> string, files: Files, at: int) {
    exists name :: name in files && OfReason(name, NIGHTLY) && files[name] == at && WrittenBy(stamp, name, at)
  }

  /** Every nightly file was written by Snapshot, no later than now. */
  ghost predicate Ours(stamp: int -> string, files: Files, clock: int) {
    forall name | name in files && OfReason(name, NIGHTLY) :: files[name] <= clock
        && WrittenBy(stamp, name, files[name])
  }

  ghost predicate Inv(stamp: int -> string, s: State) {
    && Ours(stamp, s.files, s.clock) && DayApart(s.taken)
    && (s.taken != [] ==>
          var last := s.taken[|s.taken| - 1];
          && last <= s.clock && OnDisk(stamp, s.files, last)
          && (s.lastAt.Some? ==> last <= s.lastAt.value))
  }

  lemma OwnName(stamp: int -> string, name: string, named: int, tag: string)
    requires Stamping(stamp) && name == FileName(stamp(named), NIGHTLY, tag)
    ensures OfReason(name, NIGHTLY) && StampOf(name) == stamp(named)
  {
    ParseWhatSnapshotWrites(stamp(named), NIGHTLY, tag);
  }

  lemma LaterNameDiffers(stamp: int -> string, w: string, last: int, name: string, named: int)
    requires Stamping(stamp) && StampOf(name) == stamp(named) && named - last >= DAY && WrittenBy(stamp, w, last)
    ensures w != name
  {
    var n: int :| n <= last && StampOf(w) == stamp(n);
    assert stamp(n) == stamp(named) ==> named - n < DAY;
  }

  lemma DumpKeepsOthers(files: Files, w: string, name: string, written: int, dump: Dump)
    requires w in files && w != name
    ensures w in AfterDump(files, name, written, dump) && AfterDump(files, name, written, dump)[w] == files[w]
  {
  }

  /** The dump of a tick that came at least a day after `last` does not touch the file of `last`. */
  lemma DumpKeepsLast(stamp: int -> string, files: Files, last: int, name: string, named: int, written: int, dump: Dump)
    requires Stamping(stamp) && StampOf(name) == stamp(named) && named - last >= DAY && OnDisk(stamp, files, last)
    ensures OnDisk(stamp, AfterDump(files, name, written, dump), last)
  {
    var w :| w in files && OfReason(w, NIGHTLY) && files[w] == last && WrittenBy(stamp, w, last);
    LaterNameDiffers(stamp, w, last, name, named);
    DumpKeepsOthers(files, w, name, written, dump);
  }

  lemma DumpIsOurs(stamp: int -> string, files: Files, clock: int, name: string, named: int, written: int, done: int,
      dump: Dump)
    requires Stamping(stamp) && StampOf(name) == stamp(named)
    requires Ours(stamp, files, clock) && clock <= named <= written <= done
    ensures Ours(stamp, AfterDump(files, name, written, dump), done)
  {
    var after := AfterDump(files, name, written, dump);
    forall w | w in after && OfReason(w, NIGHTLY) ensures after[w] <= done && WrittenBy(stamp, w, after[w]) {
      if w == name && after[w] == written {
        assert WrittenBy(stamp, name, written);
      } else {
        assert w in files && after[w] == files[w];
      }
    }
  }

  /** Whatever a prune removes, a file as new as the newest stays. */
  lemma PruneKeepsANewest(files: Files, reason: string, keep: int, gone: set<string>, name: string)
    requires MayRemove(files, reason, keep, gone) && name in files && OfReason(name, reason)
    ensures exists w :: w in files - gone && OfReason(w, reason) && files[w] >= files[name]
  {
    if gone == {} {
      assert name in files - gone;
    } else {
      var scan: Scan, list :| IsListing(Seen(files, scan), reason, list) && |list| > keep
          && gone <= Names(list[keep..]);
      forall j | 0 <= j < |list| - keep ensures list[keep..][j] != list[0] && list[keep..][j] in Seen(files, scan) {
        assert list[keep..][j] == list[keep + j];
      }
      if name in Seen(files, scan) {
        assert name in list;
        var i :| 0 <= i < |list| && list[i] == name;
        var w := list[0];
        assert w in files - gone && OfReason(w, reason) && files[w] >= files[name];
      } else {
        assert name in files - gone;
      }
    }
  }

  lemma PruneKeepsLast(stamp: int -> string, files: Files, clock: int, keep: int, gone: set<string>, name: string)
    requires Ours(stamp, files, clock) && MayRemove(files, NIGHTLY, keep, gone)
    requires name in files && OfReason(name, NIGHTLY)
    requires forall w | w in files && OfReason(w, NIGHTLY) :: files[w] <= files[name]
    ensures OnDisk(stamp, files - gone, files[name]) && Ours(stamp, files - gone, clock)
  {
    PruneKeepsANewest(files, NIGHTLY, keep, gone, name);
  }

  // ---- one step, then all ----------------------------------------------------------

  /** What a tick starts from is no earlier than the last snapshot taken. */
  lemma BootCoversLast(stamp: int -> string, s: State, e: Tick)
    requires Inv(stamp, s) && s.taken != []
    requires if s.lastAt.Some? then e.boot == s.lastAt else IsNewest(Seen(s.files, Scanned({})), NIGHTLY, e.boot)
    ensures e.boot.Some? && e.boot.value >= s.taken[|s.taken| - 1]
  {
    var last := s.taken[|s.taken| - 1];
    var w :| w in s.files && OfReason(w, NIGHTLY) && s.files[w] == last && WrittenBy(stamp, w, last);
  }

  lemma DayApartGrows(taken: seq<int>, at: int)
    requires DayApart(taken) && (taken != [] ==> at - taken[|taken| - 1] >= DAY)
    ensures DayApart(taken + [at])
  {
  }

  lemma IdleKeeps(stamp: int -> string, s: State, s': State)
    requires Inv(stamp, s) && s'.files == s.files && s'.taken == s.taken && s.clock <= s'.clock
    requires s'.lastAt.Some? && s.taken != [] ==> s.taken[|s.taken| - 1] <= s'.lastAt.value
    ensures Inv(stamp, s')
  {
    if s.taken != [] {
      assert OnDisk(stamp, s'.files, s'.taken[|s'.taken| - 1]);
    }
  }

  /** A due tick whose dump did not succeed. */
  lemma MissedKeeps(stamp: int -> string, s: State, e: Tick, tag: string, s': State)
    requires Stamping(stamp) && Inv(stamp, s) && s.clock <= e.t.first && Monotone(e.t)
    requires e.name == FileName(stamp(e.t.named), NIGHTLY, tag)
    requires s.taken != [] ==>
               e.boot.Some? && e.boot.value >= s.taken[|s.taken| - 1] && e.t.second - e.boot.value >= DAY
    requires s' == State(AfterDump(s.files, e.name, e.t.written, e.dump), e.boot, e.t.done, s.taken)
    ensures Inv(stamp, s')
  {
    OwnName(stamp, e.name, e.t.named, tag);
    DumpIsOurs(stamp, s.files, s.clock, e.name, e.t.named, e.t.written, e.t.done, e.dump);
    if s.taken != [] {
      DumpKeepsLast(stamp, s.files, s.taken[|s.taken| - 1], e.name, e.t.named, e.t.written, e.dump);
    }
  }

  lemma NewDumpIsNewest(stamp: int -> string, files: Files, clock: int, name: string, written: int)
    requires Ours(stamp, files, clock) && clock <= written
    ensures forall w | w in files[name := written] && OfReason(w, NIGHTLY) :: files[name := written][w] <= written
  {
  }

  lemma TakenKeeps(stamp: int -> string, s: State, e: Tick, tag: string, s': State)
    requires Stamping(stamp) && Inv(stamp, s) && s.clock <= e.t.first && Monotone(e.t)
    requires e.name == FileName(stamp(e.t.named), NIGHTLY, tag)
    requires s.taken != [] ==>
               e.boot.Some? && e.boot.value >= s.taken[|s.taken| - 1] && e.t.second - e.boot.value >= DAY
    requires e.cfg.Some?
    requires MayRemove(s.files[e.name := e.t.written], NIGHTLY, e.cfg.value.nightlyKeep, e.gone)
    requires s' == State(s.files[e.name := e.t.written] - e.gone, Some(e.t.done), e.t.done, s.taken + [e.t.written])
    ensures Inv(stamp, s')
  {
    OwnName(stamp, e.name, e.t.named, tag);
    DumpIsOurs(stamp, s.files, s.clock, e.name, e.t.named, e.t.written, e.t.done, Dumped);
    NewDumpIsNewest(stamp, s.files, s.clock, e.name, e.t.written);
    PruneKeepsLast(stamp, s.files[e.name := e.t.written], e.t.done, e.cfg.value.nightlyKeep, e.gone, e.name);
    DayApartGrows(s.taken, e.t.written);
  }

  lemma TickKeeps(stamp: int -> string, s: State, e: Tick, tag: string, s': State)
    requires Stamping(stamp) && Inv(stamp, s) && Next(stamp, s, Ticked(e, tag), s')
    ensures Inv(stamp, s')
  {
    hide ParseFilename, StampOf, IsDump, FileName;
    var took: bool :| TickStep(s.files, s.lastAt, e, s'.files, s'.lastAt, took)
      && s'.taken == (if took then s.taken + [e.t.written] else s.taken) && s'.clock == e.t.done;
    if e.cfg.None? || !e.cfg.value.nightlyEnabled || TooEarly(s.lastAt, e.t.first) {
      IdleKeeps(stamp, s, s');
    } else {
      if s.taken != [] {
        BootCoversLast(stamp, s, e);
      }
      if s.lastAt.None? && TooEarly(e.boot, e.t.second) {
        IdleKeeps(stamp, s, s');
      } else if took {
        RanMayRemove(s.files[e.name := e.t.written], NIGHTLY, e.cfg.value.nightlyKeep, e.pruneScan, e.stuck, e.gone);
        TakenKeeps(stamp, s, e, tag, s');
      } else {
        MissedKeeps(stamp, s, e, tag, s');
      }
    }
  }

  lemma OthersKeep(stamp: int -> string, s: State, s': State)
    requires Inv(stamp, s) && Next(stamp, s, Others, s')
    ensures Inv(stamp, s')
  {
    hide ParseFilename, StampOf, IsDump;
    forall name | name in s'.files && OfReason(name, NIGHTLY)
      ensures s'.files[name] <= s'.clock && WrittenBy(stamp, name, s'.files[name])
    {
      assert s.files[name] == s'.files[name];
    }
    if s.taken != [] {
      var last := s.taken[|s.taken| - 1];
      var w :| w in s.files && OfReason(w, NIGHTLY) && s.files[w] == last && WrittenBy(stamp, w, last);
      assert w in s'.files && s'.files[w] == last;
    }
  }

  ghost predicate Run(stamp: int -> string, states: seq<State>, events: seq<Event>) {
    && |states| == |events| + 1
    && forall i | 0 <= i < |events| :: Next(stamp, states[i], events[i], states[i + 1])
  }

  lemma RunPrefix(stamp: int -> string, states: seq<State>, events: seq<Event>)
    requires Run(stamp, states, events) && events != []
    ensures Run(stamp, states[..|events|], events[..|events| - 1])
    ensures Next(stamp, states[|events| - 1], events[|events| - 1], states[|events|])
  {
    var before, done := states[..|events|], events[..|events| - 1];
    forall i | 0 <= i < |done| ensures Next(stamp, before[i], done[i], before[i + 1]) {
      assert Next(stamp, states[i], events[i], states[i + 1]);
    }
  }

  /** Over every run of ticks, restarts and other uses of the directory, under a clock that does not
      go back and listings that work: successful nightly snapshots are a day or more apart, and the
      last of them is on disk until the next. */
  lemma {:induction false} NightliesADayApart(stamp: int -> string, states: seq<State>, events: seq<Event>)
    requires Stamping(stamp) && Run(stamp, states, events)
    requires Ours(stamp, states[0].files, states[0].clock) && states[0].taken == [] && states[0].lastAt == None
    ensures var s := states[|events|];
            && DayApart(s.taken)
            && (s.taken != [] ==> OnDisk(stamp, s.files, s.taken[|s.taken| - 1]))
            && Inv(stamp, s)
    decreases |events|
  {
    hide ParseFilename, StampOf, IsDump;
    var n := |events|;
    if n > 0 {
      RunPrefix(stamp, states, events);
      NightliesADayApart(stamp, states[..n], events[..n - 1]);
      match events[n - 1]
      case Ticked(e, tag) => TickKeeps(stamp, states[n - 1], e, tag, states[n]);
      case Restarted =>
      case Others => OthersKeep(stamp, states[n - 1], states[n]);
    }
  }

  // ---- what the conditions are for ---------------------------------------------------

  /** With the config unreadable or nightlies turned off, a tick does nothing. */
  lemma OffDoesNothing(files: Files, lastAt: Option<int>, e: Tick, files': Files, lastAt': Option<int>, took: bool)
    requires TickStep(files, lastAt, e, files', lastAt', took)
    requires e.cfg.None? || !e.cfg.value.nightlyEnabled
    ensures files' == files && lastAt' == lastAt && !took
  {
  }

  /** A cold tick that is able to dumps exactly when it can see no nightly younger than a day:
      a deleted nightly, one that cannot be read or a failed listing lets it dump again at once. */
  lemma ColdTickIff(files: Files, e: Tick, files': Files, lastAt': Option<int>, took: bool)
    requires TickStep(files, None, e, files', lastAt', took)
    requires e.cfg.Some? && e.cfg.value.nightlyEnabled && e.dump.Dumped?
    ensures var seen := Seen(files, e.scan);
            took <==> forall name | name in seen && OfReason(name, NIGHTLY) :: e.t.second - seen[name] >= DAY
  {
  }

  /** A warm tick that is able to dumps exactly a day after lastAt, whatever is on disk. */
  lemma WarmTickIff(files: Files, last: int, e: Tick, files': Files, lastAt': Option<int>, took: bool)
    requires TickStep(files, Some(last), e, files', lastAt', took)
    requires e.cfg.Some? && e.cfg.value.nightlyEnabled && e.dump.Dumped?
    ensures took <==> e.t.first - last >= DAY
  {
  }

  /** The prune after a dump removes nothing: it is turned off, cannot list, or has room for all files. */
  predicate LeavesAll(files: Files, keep: int, scan: Scan) {
    keep <= 0 || scan.NoScan? || |files| <= keep
  }

  lemma NoneRemoved(files: Files, keep: int, scan: Scan)
    requires LeavesAll(files, keep, scan)
    ensures PruneRan(files, NIGHTLY, keep, scan, {}, {})
  {
    hide OfReason, IsListing;
    var seen := Seen(files, scan);
    var part := OfReasonSet(seen, NIGHTLY);
    assert files.Keys == part + (files.Keys - part) && |files| == |files.Keys|;
  }

  function TickAt(stamp: int -> string, tag: string, keep: int, at: int, dump: Dump, pruneScan: Scan, last: int): Tick {
    Tick(Some(Config(true, keep)), Scanned({}), FileName(stamp(at), NIGHTLY, tag), Times(at, at, at, at, at), dump,
        pruneScan, {}, Some(last), {})
  }

  /** A dump that is on disk but counted as failed does not hold back the next: a minute later a warm
      scheduler dumps again, and the two nightly files are that minute apart. They stay unless the prune
      after the second has no room for both. */
  lemma UncountedDumpRepeats(stamp: int -> string, files: Files, tag: string, keep: int, n: int, dump: Dump, scan: Scan)
    requires Stamping(stamp) && stamp(n) != stamp(n + 60) && (dump.StatFailed? || dump == FailedAndLeft(true))
    requires keep <= 0 || scan.NoScan? || |files| + 2 <= keep
    ensures var last := n - DAY;
            var a := TickAt(stamp, tag, keep, n, dump, scan, last);
            var b := TickAt(stamp, tag, keep, n + 60, Dumped, scan, last);
            var once, twice := files[a.name := n], files[a.name := n][b.name := n + 60];
            && TickStep(files, Some(last), a, once, Some(last), false)
            && TickStep(once, Some(last), b, twice, Some(n + 60), true)
            && OfReason(a.name, NIGHTLY) && OfReason(b.name, NIGHTLY) && twice[b.name] - twice[a.name] == 60
  {
    var last := n - DAY;
    UncountedStep(stamp, files, tag, keep, n, dump, scan, last);
    var a := TickAt(stamp, tag, keep, n, dump, scan, last);
    var b := TickAt(stamp, tag, keep, n + 60, Dumped, scan, last);
    OneMoreFile(files, a.name, n);
    OneMoreFile(files[a.name := n], b.name, n + 60);
    DumpedStep(stamp, files[a.name := n], tag, keep, n + 60, scan, last);
    OwnName(stamp, a.name, n, tag);
    OwnName(stamp, b.name, n + 60, tag);
    hide ParseFilename, StampOf, IsDump, FileName, TickStep;
    assert a.name != b.name;
  }

  lemma OneMoreFile(files: Files, name: string, at: int)
    ensures |files[name := at]| <= |files| + 1
  {
    assert files[name := at].Keys == files.Keys + {name};
    assert |files[name := at]| == |files[name := at].Keys| && |files| == |files.Keys|;
  }

  lemma UncountedStep(stamp: int -> string, files: Files, tag: string, keep: int, at: int, dump: Dump, scan: Scan,
                      last: int)
    requires at - last >= DAY && (dump.StatFailed? || dump == FailedAndLeft(true))
    ensures var e := TickAt(stamp, tag, keep, at, dump, scan, last);
            TickStep(files, Some(last), e, files[e.name := at], Some(last), false)
  {
    hide FileName;
  }

  lemma DumpedStep(stamp: int -> string, files: Files, tag: string, keep: int, at: int, scan: Scan, last: int)
    requires at - last >= DAY
    requires LeavesAll(files[FileName(stamp(at), NIGHTLY, tag) := at], keep, scan)
    ensures var e := TickAt(stamp, tag, keep, at, Dumped, scan, last);
            TickStep(files, Some(last), e, files[e.name := at], Some(at), true)
  {
    hide FileName, PruneRan;
    var e := TickAt(stamp, tag, keep, at, Dumped, scan, last);
    NoneRemoved(files[e.name := at], keep, scan);
    assert files[e.name := at] - {} == files[e.name := at];
  }

  // ---- the nightly files themselves ----------------------------------------------------

  /** No dump stays on disk without counting. */
  predicate Clean(ev: Event) {
    ev.Ticked? ==> !ev.e.dump.StatFailed? && ev.e.dump != FailedAndLeft(true)
  }

  /** The nightly file is as it was at the start. */
  predicate Original(start: Files, files: Files, name: string)
    requires name in files
  {
    name in start && start[name] == files[name]
  }

  /** Any two nightly files are a day apart, unless both were there at the start. */
  ghost predicate FilesApart(start: Files, files: Files) {
    forall a, b | a in files && b in files && OfReason(a, NIGHTLY) && OfReason(b, NIGHTLY) && a != b ::
      (Original(start, files, a) && Original(start, files, b)) || files[a] - files[b] >= DAY
          || files[b] - files[a] >= DAY
  }

  ghost predicate NoneAfter(files: Files, at: int) {
    forall name | name in files && OfReason(name, NIGHTLY) :: files[name] <= at
  }

  ghost predicate FilesInv(start: Files, s: State) {
    FilesApart(start, s.files) && (s.lastAt.Some? ==> NoneAfter(s.files, s.lastAt.value))
  }

  lemma FewerApart(start: Files, files: Files, gone: set<string>, at: int)
    requires FilesApart(start, files)
    ensures FilesApart(start, files - gone)
    ensures NoneAfter(files, at) ==> NoneAfter(files - gone, at)
  {
    hide OfReason;
  }

  lemma OneMoreApart(start: Files, files: Files, name: string, last: Option<int>, written: int)
    requires FilesApart(start, files) && IsNewestOrLater(files, last)
    requires last.Some? ==> written - last.value >= DAY
    ensures FilesApart(start, files[name := written]) && NoneAfter(files[name := written], written)
  {
    hide OfReason;
    var more := files[name := written];
    forall a | a in files && OfReason(a, NIGHTLY) ensures written - files[a] >= DAY { }
    forall a, b | a in more && b in more && OfReason(a, NIGHTLY) && OfReason(b, NIGHTLY) && a != b
      ensures (Original(start, more, a) && Original(start, more, b)) || more[a] - more[b] >= DAY
                || more[b] - more[a] >= DAY
    {
      if a != name && b != name {
        assert more[a] == files[a] && more[b] == files[b];
      }
    }
  }

  /** No nightly file is newer than `last`, and there is none when that is missing. */
  ghost predicate IsNewestOrLater(files: Files, last: Option<int>) {
    forall name | name in files && OfReason(name, NIGHTLY) :: last.Some? && files[name] <= last.value
  }

  lemma TickKeepsFilesApart(stamp: int -> string, start: Files, s: State, e: Tick, tag: string, s': State)
    requires FilesInv(start, s) && Next(stamp, s, Ticked(e, tag), s') && Clean(Ticked(e, tag))
    ensures FilesInv(start, s')
  {
    hide OfReason, FileName;
    var took: bool :| TickStep(s.files, s.lastAt, e, s'.files, s'.lastAt, took)
      && s'.taken == (if took then s.taken + [e.t.written] else s.taken) && s'.clock == e.t.done;
    if e.cfg.Some? && e.cfg.value.nightlyEnabled && !TooEarly(s.lastAt, e.t.first) {
      assert IsNewestOrLater(s.files, e.boot);
      if !(s.lastAt.None? && TooEarly(e.boot, e.t.second)) {
        if took {
          OneMoreApart(start, s.files, e.name, e.boot, e.t.written);
          FewerApart(start, s.files[e.name := e.t.written], e.gone, e.t.done);
        } else {
          FewerApart(start, s.files, {e.name}, if e.boot.Some? then e.boot.value else 0);
        }
      }
    }
  }

  lemma OthersKeepFilesApart(stamp: int -> string, start: Files, s: State, s': State)
    requires FilesInv(start, s) && Next(stamp, s, Others, s')
    ensures FilesInv(start, s')
  {
    hide OfReason;
    forall a | a in s'.files && OfReason(a, NIGHTLY) ensures a in s.files && s.files[a] == s'.files[a] { }
  }

  /** While no dump stays on disk uncounted, any two nightly files are a day apart, unless both were
      there before the run. */
  lemma {:induction false} CleanRunsApart(stamp: int -> string, states: seq<State>, events: seq<Event>)
    requires Run(stamp, states, events) && states[0].lastAt == None
    requires forall i | 0 <= i < |events| :: Clean(events[i])
    ensures FilesInv(states[0].files, states[|events|])
    decreases |events|
  {
    hide OfReason;
    var n := |events|;
    if n > 0 {
      RunPrefix(stamp, states, events);
      CleanRunsApart(stamp, states[..n], events[..n - 1]);
      match events[n - 1]
      case Ticked(e, tag) => TickKeepsFilesApart(stamp, states[0].files, states[n - 1], e, tag, states[n]);
      case Restarted =>
      case Others => OthersKeepFilesApart(stamp, states[0].files, states[n - 1], states[n]);
    }
  }

  /** The dump leaves a file under its name, whether it counts or not. */
  predicate LeavesFile(d: Dump) {
    d.Dumped? || d.StatFailed? || d == FailedAndLeft(true)
  }

  /** A warm tick, due by lastAt, whose dump leaves a file although a nightly newer than lastAt is less
      than a day old; and the prune that follows a dump that counts, if any, removes neither of them. */
  ghost predicate Crowds(s: State, ev: Event) {
    && ev.Ticked? && s.lastAt.Some? && ev.e.cfg.Some? && ev.e.cfg.value.nightlyEnabled
    && ev.e.t.first - s.lastAt.value >= DAY && LeavesFile(ev.e.dump)
    && var gone := if ev.e.dump.Dumped? then ev.e.gone else {};
       ev.e.name !in gone
       && exists a | a in s.files :: OfReason(a, NIGHTLY) && a != ev.e.name && a !in gone
            && s.files[a] > s.lastAt.value && ev.e.t.written - s.files[a] < DAY
  }

  /** The nightly files there at the start are older than the run, and none is dated ahead of the clock. */
  ghost predicate Dated(start: Files, s: State) {
    && (forall a | a in start && OfReason(a, NIGHTLY) :: start[a] < s.clock)
    && NoneAfter(s.files, s.clock)
  }

  /** A file written now joins others: they stay apart exactly when each that stays is a day old. */
  lemma JoinsApartIff(start: Files, files: Files, name: string, written: int, gone: set<string>)
    requires FilesApart(start, files) && OfReason(name, NIGHTLY) && NoneAfter(files, written)
    requires name in start ==> start[name] < written
    ensures FilesApart(start, files[name := written] - gone) <==>
            (name !in gone ==>
               forall a | a in files && OfReason(a, NIGHTLY) && a != name && a !in gone :: written - files[a] >= DAY)
  {
    hide OfReason;
    var more := files[name := written] - gone;
    forall a | a in more && a != name ensures a in files && more[a] == files[a] { }
    if name !in gone {
      assert more[name] == written && !Original(start, more, name);
      if FilesApart(start, more) {
        forall a | a in files && OfReason(a, NIGHTLY) && a != name && a !in gone
          ensures written - files[a] >= DAY
        {
          assert a in more && more[a] == files[a] <= written;
        }
      }
    }
  }

  /** One tick keeps the nightly files apart exactly when it does not crowd them. */
  lemma TickKeepsApartIff(stamp: int -> string, start: Files, s: State, e: Tick, tag: string, s': State)
    requires FilesApart(start, s.files) && Dated(start, s) && Next(stamp, s, Ticked(e, tag), s')
    requires OfReason(e.name, NIGHTLY)
    ensures FilesApart(start, s'.files) <==> !Crowds(s, Ticked(e, tag))
  {
    hide OfReason, FileName;
    var took: bool :| TickStep(s.files, s.lastAt, e, s'.files, s'.lastAt, took)
      && s'.taken == (if took then s.taken + [e.t.written] else s.taken) && s'.clock == e.t.done;
    var gone := if e.dump.Dumped? then e.gone else {};
    var idle := e.cfg.None? || !e.cfg.value.nightlyEnabled || TooEarly(s.lastAt, e.t.first)
                || (s.lastAt.None? && TooEarly(e.boot, e.t.second));
    if !idle && LeavesFile(e.dump) {
      JoinsApartIff(start, s.files, e.name, e.t.written, gone);
      assert s'.files == s.files[e.name := e.t.written] - gone;
    } else if !idle {
      FewerApart(start, s.files, {e.name}, s.clock);
    }
  }

  lemma StepKeepsDated(stamp: int -> string, start: Files, s: State, ev: Event, s': State)
    requires Dated(start, s) && Next(stamp, s, ev, s')
    ensures Dated(start, s')
  {
    hide OfReason, FileName;
    if ev.Others? {
      forall a | a in s'.files && OfReason(a, NIGHTLY) ensures a in s.files && s.files[a] == s'.files[a] { }
    }
  }

  lemma StepKeepsApartIff(stamp: int -> string, start: Files, s: State, ev: Event, s': State)
    requires Stamping(stamp) && FilesApart(start, s.files) && Dated(start, s) && Next(stamp, s, ev, s')
    ensures FilesApart(start, s'.files) <==> !Crowds(s, ev)
  {
    match ev
    case Ticked(e, tag) =>
      OwnName(stamp, e.name, e.t.named, tag);
      TickKeepsApartIff(stamp, start, s, e, tag, s');
    case Restarted =>
    case Others =>
      hide OfReason;
      forall a | a in s'.files && OfReason(a, NIGHTLY) ensures a in s.files && s.files[a] == s'.files[a] { }
  }

  lemma {:induction false} RunKeepsDated(stamp: int -> string, states: seq<State>, events: seq<Event>, n: nat)
    requires Run(stamp, states, events) && Dated(states[0].files, states[0]) && n <= |events|
    ensures Dated(states[0].files, states[n])
    decreases n
  {
    hide Dated;
    if n > 0 {
      RunKeepsDated(stamp, states, events, n - 1);
      assert Next(stamp, states[n - 1], events[n - 1], states[n]);
      StepKeepsDated(stamp, states[0].files, states[n - 1], events[n - 1], states[n]);
    }
  }

  lemma {:induction false} ApartUntilCrowded(stamp: int -> string, states: seq<State>, events: seq<Event>, n: nat)
    requires Stamping(stamp) && Run(stamp, states, events) && Dated(states[0].files, states[0]) && n <= |events|
    requires forall k | 0 <= k < n :: !Crowds(states[k], events[k])
    ensures FilesApart(states[0].files, states[n].files)
    decreases n
  {
    hide Dated, Crowds, OfReason;
    if n > 0 {
      ApartUntilCrowded(stamp, states, events, n - 1);
      RunKeepsDated(stamp, states, events, n - 1);
      assert Next(stamp, states[n - 1], events[n - 1], states[n]);
      StepKeepsApartIff(stamp, states[0].files, states[n - 1], events[n - 1], states[n]);
    }
  }

  /** Over every run of ticks, restarts and other uses of the directory, any two nightly files are a day
      apart throughout, unless both were there before the run - if and only if no tick crowds them. */
  lemma NightlyFilesADayApart(stamp: int -> string, states: seq<State>, events: seq<Event>)
    requires Stamping(stamp) && Run(stamp, states, events)
    requires forall a | a in states[0].files && OfReason(a, NIGHTLY) :: states[0].files[a] < states[0].clock
    ensures (forall n | 0 <= n <= |events| :: FilesApart(states[0].files, states[n].files))
            <==> forall k | 0 <= k < |events| :: !Crowds(states[k], events[k])
  {
    var start := states[0].files;
    assert Dated(start, states[0]);
    hide Crowds, OfReason, Dated, FilesApart;
    if forall n | 0 <= n <= |events| :: FilesApart(start, states[n].files) {
      forall k | 0 <= k < |events| ensures !Crowds(states[k], events[k]) {
        RunKeepsDated(stamp, states, events, k);
        assert Next(stamp, states[k], events[k], states[k + 1]);
        StepKeepsApartIff(stamp, start, states[k], events[k], states[k + 1]);
      }
    }
    if forall k | 0 <= k < |events| :: !Crowds(states[k], events[k]) {
      forall n | 0 <= n <= |events| ensures FilesApart(start, states[n].files) {
        ApartUntilCrowded(stamp, states, events, n);
      }
    }
  }

  // ---- how many there are -----------------------------------------------------------

  /** A tick that took a snapshot, with a prune that saw every file and was stopped by none, leaves no
      more nightlies than it keeps - and so many unless there were fewer - and nothing it removed is
      newer than anything it left. The new one is left when the others are older. */
  lemma TickPrunes(files: Files, lastAt: Option<int>, e: Tick, files': Files, lastAt': Option<int>)
    requires TickStep(files, lastAt, e, files', lastAt', true)
    requires e.cfg.Some? && e.cfg.value.nightlyKeep > 0 && e.pruneScan == Scanned({}) && e.stuck == {}
    ensures var dumped, keep := files[e.name := e.t.written], e.cfg.value.nightlyKeep;
            var before, after := OfReasonSet(dumped, NIGHTLY), OfReasonSet(files', NIGHTLY);
            && |after| == (if |before| <= keep then |before| else keep) && |after| <= keep
            && (forall m | m in files' :: m in dumped && files'[m] == dumped[m])
            && before - after == dumped.Keys - files'.Keys
            && (forall m, n | m in after && n in before - after :: m in dumped && n in dumped && dumped[m] >= dumped[n])
            && (OfReason(e.name, NIGHTLY)
                && (forall m | m in files && m != e.name && OfReason(m, NIGHTLY) :: files[m] < e.t.written)
                ==> e.name in files')
  {
    hide OfReason, PruneRan;
    var dumped, keep := files[e.name := e.t.written], e.cfg.value.nightlyKeep;
    PruneRanKeepsNewest(dumped, NIGHTLY, keep, e.gone);
    var before, after := OfReasonSet(dumped, NIGHTLY), OfReasonSet(files', NIGHTLY);
    assert e.gone <= dumped.Keys;
    if e.name in e.gone && OfReason(e.name, NIGHTLY) {
      var m := SomeLeft(after);
      assert m in dumped && dumped[m] >= dumped[e.name];
    }
  }

  lemma SomeLeft(names: set<string>) returns (m: string)
    requires |names| > 0
    ensures m in names
  {
    m :| m in names;
  }

  /** Every dump that counts is followed by a complete prune to `keep` files at most, and every dump
      that leaves a file counts. */
  predicate Complete(ev: Event, keep: int) {
    && Clean(ev)
    && (ev.Ticked? ==> ev.e.pruneScan == Scanned({}) && ev.e.stuck == {})
    && (ev.Ticked? && ev.e.cfg.Some? ==> 0 < ev.e.cfg.value.nightlyKeep <= keep)
  }

  lemma StepKeepsFew(stamp: int -> string, s: State, ev: Event, s': State, keep: int)
    requires Next(stamp, s, ev, s') && Complete(ev, keep)
    ensures var n, n' := |OfReasonSet(s.files, NIGHTLY)|, |OfReasonSet(s'.files, NIGHTLY)|;
            n' <= n || n' <= keep
    ensures s'.taken != s.taken ==> |OfReasonSet(s'.files, NIGHTLY)| <= keep
  {
    hide OfReason, FileName;
    match ev
    case Ticked(e, tag) =>
      var took: bool :| TickStep(s.files, s.lastAt, e, s'.files, s'.lastAt, took)
        && s'.taken == (if took then s.taken + [e.t.written] else s.taken) && s'.clock == e.t.done;
      if took {
        TickPrunes(s.files, s.lastAt, e, s'.files, s'.lastAt);
      } else {
        FewerOfReason(s.files, s'.files);
      }
    case Restarted =>
    case Others =>
      FewerOfReason(s.files, s'.files);
  }

  lemma FewerOfReason(files: Files, files': Files)
    requires forall name | name in files' && OfReason(name, NIGHTLY) :: name in files
    ensures |OfReasonSet(files', NIGHTLY)| <= |OfReasonSet(files, NIGHTLY)|
  {
    hide OfReason;
    var a, b := OfReasonSet(files', NIGHTLY), OfReasonSet(files, NIGHTLY);
    assert b == a + (b - a);
  }

  /** Over every such run there are at most `keep` nightly files from the first dump that counts on, and
      never more than that or than there were at the start. */
  lemma {:induction false} NeverMoreThanKept(stamp: int -> string, states: seq<State>, events: seq<Event>, keep: int)
    requires Run(stamp, states, events) && forall i | 0 <= i < |events| :: Complete(events[i], keep)
    ensures var n0, n := |OfReasonSet(states[0].files, NIGHTLY)|, |OfReasonSet(states[|events|].files, NIGHTLY)|;
            && (n <= n0 || n <= keep) && (states[|events|].taken != states[0].taken ==> n <= keep)
    decreases |events|
  {
    hide OfReasonSet, Next, Complete;
    var n := |events|;
    if n > 0 {
      RunPrefix(stamp, states, events);
      NeverMoreThanKept(stamp, states[..n], events[..n - 1], keep);
      StepKeepsFew(stamp, states[n - 1], events[n - 1], states[n], keep);
    }
  }

  /** Snapshots of the other reasons leave the nightly files alone, */
  lemma OtherSnapshots(files: Files, stamp: string, reason: string, tag: string, written: int, dump: Dump)
    requires '_' !in stamp && reason in [PRE_MIGRATION, MANUAL]
    ensures SameNightlies(files, AfterDump(files, FileName(stamp, reason, tag), written, dump))
  {
    assert PRE_MIGRATION[0] == 'p' && MANUAL[0] == 'm' && NIGHTLY[0] == 'n';
    var name := FileName(stamp, reason, tag);
    ParseWhatSnapshotWrites(stamp, reason, tag);
    assert !OfReason(name, NIGHTLY);
  }

  /** and so do prunes of any other reason. */
  lemma OtherPrunes(files: Files, reason: string, keep: int, gone: set<string>)
    requires reason != NIGHTLY && MayRemove(files, reason, keep, gone)
    ensures SameNightlies(files, files - gone)
  {
    hide ParseFilename, IsDump;
    if gone != {} {
      var scan: Scan, list :| IsListing(Seen(files, scan), reason, list) && |list| > keep
          && gone <= Names(list[keep..]);
      forall name | name in gone ensures !OfReason(name, NIGHTLY) {
        var j :| 0 <= j < |list| - keep && list[keep..][j] == name;
        assert list[keep + j] == name;
      }
    }
  }
}
