/**
 * WorldsDataHandler: the store of scheduled world resets, the startup rollover (deleteAny), the periodic
 * broadcast selection (auditResets) and the outer-region file predicate that decides which region files a
 * reset deletes. Instants and durations are whole epoch seconds and every clock reading is the parameter
 * `now`; the worlds folder is a finite set of file paths, each a sequence of name elements below it.
 */
module WorldsDataHandlers {
  import opened Wrappers
  import opened JavaLang
  import opened ScheduledResets
  import Utils
  import Yaml

  /** WorldOperationResult, with the two constants schedule picks between. */
  datatype WorldOperationResult = SuccessOther | SuccessRescheduled

  // ---------------------------------------------------------------------------
  // Region files

  /** IS_INNER_REGION: the path ends with one of the four region files around the origin. */
  predicate IsInnerRegion(path: seq<string>) {
    |path| > 0 && path[|path| - 1] in {"r.0.0.mca", "r.0.-1.mca", "r.-1.0.mca", "r.-1.-1.mca"}
  }

  /** One `\.-?\d` of the region pattern: a dot, an optional minus sign and exactly one digit. */
  predicate Coord(c: string) {
    || (|c| == 2 && c[0] == '.' && IsDigit(c[1]))
    || (|c| == 3 && c[0] == '.' && c[1] == '-' && IsDigit(c[2]))
  }

  /** `(?:\.-?\d){2}`: the text splits into two coordinates. */
  predicate CoordPair(s: string) {
    || (|s| >= 2 && Coord(s[..2]) && Coord(s[2..]))
    || (|s| >= 3 && Coord(s[..3]) && Coord(s[3..]))
  }

  /** REGION_FILE_MATCHER on a file name: the whole name matches `r(?:\.-?\d){2}\.mca`. */
  predicate RegionName(name: string) {
    |name| >= 9 && name[0] == 'r' && name[|name| - 4..] == ".mca" && CoordPair(name[1..|name| - 4])
  }

  /** IS_OUTER_REGION: not an inner region, and the file name matches the region pattern. */
  predicate IsOuterRegion(path: seq<string>) {
    |path| > 0 && !IsInnerRegion(path) && RegionName(path[|path| - 1])
  }

  /** Any two coordinates make a region name. */
  lemma RegionNameComplete(a: string, b: string)
    requires Coord(a) && Coord(b)
    ensures RegionName("r" + a + b + ".mca")
  {
    var n := "r" + a + b + ".mca";
    assert n[1..|n| - 4] == a + b;
    assert n[|n| - 4..] == ".mca";
    assert (a + b)[..|a|] == a && (a + b)[|a|..] == b;
  }

  /** Every region name is made of two coordinates. */
  lemma RegionNameSound(name: string) returns (a: string, b: string)
    requires RegionName(name)
    ensures Coord(a) && Coord(b) && name == "r" + a + b + ".mca"
  {
    var s := name[1..|name| - 4];
    if |s| >= 2 && Coord(s[..2]) && Coord(s[2..]) {
      a, b := s[..2], s[2..];
    } else {
      a, b := s[..3], s[3..];
    }
    assert a + b == s;
    assert name == [name[0]] + s + name[|name| - 4..];
  }

  /** A coordinate has exactly one digit, so a two-digit coordinate is not a region name. */
  lemma MultiDigitCoordinateIgnored(path: seq<string>)
    requires |path| > 0 && path[|path| - 1] == "r.10.0.mca"
    ensures !IsOuterRegion(path)
  {
    var s := "r.10.0.mca"[1..6];
    assert s == ".10.0";
    assert !Coord(s[2..]) by { assert s[2..][0] == '0'; }
    assert !Coord(s[..3]) by { assert s[..3][1] == '1'; }
  }

  /** The inner names are compared as text, so "-0" is not "0" and r.-0.0.mca is deleted. */
  lemma NegativeZeroIsOuter(path: seq<string>)
    requires |path| > 0 && path[|path| - 1] == "r.-0.0.mca"
    ensures IsOuterRegion(path)
  {
    var n := "r.-0.0.mca";
    assert n == "r" + ".-0" + ".0" + ".mca";
    RegionNameComplete(".-0", ".0");
    assert n != "r.0.0.mca" && n != "r.0.-1.mca" && n != "r.-1.0.mca" && n != "r.-1.-1.mca" by {
      assert n[2] == '-' && n[3] == '0';
    }
  }

  /** The four origin regions match the pattern but are never outer. */
  lemma InnerRegionsKept(path: seq<string>)
    requires IsInnerRegion(path)
    ensures !IsOuterRegion(path)
  {
  }

  /** deleteRegionsRecursively: the outer-region files anywhere below the world's folder. */
  function RegionsOf(files: set<seq<string>>, worldName: string): (r: set<seq<string>>)
    ensures r <= files
    ensures forall p :: p in r <==> p in files && |p| >= 2 && p[0] == worldName && IsOuterRegion(p)
  {
    set p | p in files && |p| >= 2 && p[0] == worldName && IsOuterRegion(p)
  }

  // ---------------------------------------------------------------------------
  // The stored document

  /** What load finds in worlds.json, after Gson has decoded it. */
  datatype WorldsDocument =
    | Missing                                        // no file: one holding "[]" is created
    | Malformed                                      // a JsonParseException: backed up, read as {}
    | EmptyDocument                                  // Gson reads null from an empty file
    | JsonObject(legacy: map<string, ScheduledReset>) // the legacy world-name -> reset object
    | JsonArray(resets: seq<ScheduledReset>)          // the current array of resets
    | OtherJson                                      // JSON null or a primitive

  /** The resets load adds for a document, or None when load fails on it (a null read is dereferenced). */
  function StoredResets(doc: WorldsDocument): (r: Option<set<ScheduledReset>>)
    ensures r.None? <==> doc.EmptyDocument?
    ensures doc.JsonObject? ==> r == Some(doc.legacy.Values)
    ensures doc.JsonArray? ==> r == Some(set i | 0 <= i < |doc.resets| :: doc.resets[i])
    ensures doc.Missing? || doc.Malformed? || doc.OtherJson? ==> r == Some({})
  {
    match doc
    case Missing => Some({})
    case Malformed => Some({})
    case EmptyDocument => None
    case JsonObject(legacy) => Some(legacy.Values)
    case JsonArray(resets) => Some(set i | 0 <= i < |resets| :: resets[i])
    case OtherJson => Some({})
  }

  /** A non-empty set has a member: the step a loop over a set takes. */
  lemma Member<T>(s: set<T>) returns (x: T)
    requires s != {}
    ensures x in s
  {
    if forall y :: y !in s {
      assert false;
    }
    x :| x in s;
  }

  /** `order` lists each element of `s` exactly once: one iteration order of a HashSet. */
  predicate Enumerates<T(==)>(order: seq<T>, s: set<T>) {
    && (forall i :: 0 <= i < |order| ==> order[i] in s)
    && (forall x :: x in s ==> x in order)
    && (forall i, j :: 0 <= i < j < |order| ==> order[i] != order[j])
  }

  /** The moments load adds for the broadcast-prior-reset list, or None when an element is not a string
      (the unchecked cast in the stream fails before anything is added). */
  function Moments(priorReset: seq<Yaml.Value>): (r: Option<set<int>>)
    ensures r.Some? <==> forall i :: 0 <= i < |priorReset| ==> priorReset[i].Str?
    ensures r.Some? ==> forall m :: m in r.value <==>
              exists i :: 0 <= i < |priorReset| && m == Utils.ParseDuration(priorReset[i].s)
  {
    if forall i :: 0 <= i < |priorReset| ==> priorReset[i].Str? then
      Some(set i | 0 <= i < |priorReset| :: Utils.ParseDuration(priorReset[i].s))
    else None
  }

  /** What save writes is read back by load as the same set of resets. */
  lemma SaveLoadRoundTrip(order: seq<ScheduledReset>, s: set<ScheduledReset>)
    requires Enumerates(order, s)
    ensures StoredResets(JsonArray(order)) == Some(s)
  {
    var read := set i | 0 <= i < |order| :: order[i];
    forall x | x in s ensures x in read {
      var i :| 0 <= i < |order| && order[i] == x;
    }
    assert read == s;
  }

  /** The legacy object keeps only its values: the map's keys are not used. */
  lemma LegacyKeysIgnored(m1: map<string, ScheduledReset>, m2: map<string, ScheduledReset>)
    requires m1.Values == m2.Values
    ensures StoredResets(JsonObject(m1)) == StoredResets(JsonObject(m2))
  {
  }

  // ---------------------------------------------------------------------------
  // Case-insensitive removal and scheduling

  /** removeIf(reset -> reset.getWorldName().equalsIgnoreCase(worldName)): what remains. */
  function WithoutWorld(s: set<ScheduledReset>, worldName: string): (r: set<ScheduledReset>)
    ensures r <= s
    ensures forall x :: x in r <==> x in s && !EqualsIgnoreCase(x.worldName, worldName)
  {
    set x | x in s && !EqualsIgnoreCase(x.worldName, worldName)
  }

  /** Whether an entry for the world exists, ignoring case: what removeIf returns. */
  predicate HasWorld(s: set<ScheduledReset>, worldName: string) {
    exists x :: x in s && EqualsIgnoreCase(x.worldName, worldName)
  }

  lemma RemovedIffHasWorld(s: set<ScheduledReset>, worldName: string)
    ensures WithoutWorld(s, worldName) != s <==> HasWorld(s, worldName)
  {
    if HasWorld(s, worldName) {
      var x :| x in s && EqualsIgnoreCase(x.worldName, worldName);
      assert x !in WithoutWorld(s, worldName);
    }
  }

  /** The store after schedule: every entry for the world, in any casing, replaced by one fresh entry. */
  function Scheduled(s: set<ScheduledReset>, worldName: string, interval: int, now: int): set<ScheduledReset> {
    WithoutWorld(s, worldName) + {NewResetNow(interval, worldName, now)}
  }

  /** schedule leaves exactly one entry for the world, the new one with the name as given, and keeps the
      entries of every other world. */
  lemma ScheduleLeavesOne(s: set<ScheduledReset>, worldName: string, interval: int, now: int)
    ensures var r := Scheduled(s, worldName, interval, now);
            && NewResetNow(interval, worldName, now) in r
            && (forall x :: x in r && EqualsIgnoreCase(x.worldName, worldName) ==>
                  x == NewResetNow(interval, worldName, now))
            && (forall x: ScheduledReset :: !EqualsIgnoreCase(x.worldName, worldName) ==> (x in r <==> x in s))
  {
  }

  /** Unscheduling right after scheduling leaves what unscheduling alone leaves. */
  lemma UnscheduleUndoesSchedule(s: set<ScheduledReset>, worldName: string, interval: int, now: int)
    ensures WithoutWorld(Scheduled(s, worldName, interval, now), worldName) == WithoutWorld(s, worldName)
  {
  }

  /** An immediate second unschedule finds nothing to remove. */
  lemma UnscheduleTwice(s: set<ScheduledReset>, worldName: string)
    ensures !HasWorld(WithoutWorld(s, worldName), worldName)
    ensures WithoutWorld(WithoutWorld(s, worldName), worldName) == WithoutWorld(s, worldName)
  {
  }

  /** Scheduling again under another casing replaces the entry, and schedule then reports success-other. */
  lemma RescheduleFindsEntry(s: set<ScheduledReset>, w1: string, w2: string, i1: int, i2: int, now: int)
    requires EqualsIgnoreCase(w1, w2)
    ensures HasWorld(Scheduled(s, w1, i1, now), w2)
    ensures Scheduled(Scheduled(s, w1, i1, now), w2, i2, now) == Scheduled(s, w2, i2, now)
  {
    assert NewResetNow(i1, w1, now) in Scheduled(s, w1, i1, now);
    var lhs := Scheduled(Scheduled(s, w1, i1, now), w2, i2, now);
    var rhs := Scheduled(s, w2, i2, now);
    forall x | x in lhs ensures x in rhs {
      if x != NewResetNow(i2, w2, now) {
        assert !EqualsIgnoreCase(x.worldName, w2);
      }
    }
  }

  // ---------------------------------------------------------------------------
  // Rollover (deleteAny)

  /** The loop of deleteAny: the last whole-interval step from `from` after which one more step is not
      before now. */
  function RollForward(from: int, interval: int, now: int): (r: int)
    requires interval > 0
    decreases now - from
  {
    if from + interval < now then RollForward(from + interval, interval, now) else from
  }

  /** How many times the loop of deleteAny runs. */
  function RollSteps(from: int, interval: int, now: int): nat
    requires interval > 0
    decreases now - from
  {
    if from + interval < now then 1 + RollSteps(from + interval, interval, now) else 0
  }

  /** The entry deleteAny adds for an overdue one. */
  function Rolled(r: ScheduledReset, now: int): ScheduledReset
    requires r.interval > 0
  {
    NewReset(r.interval, RollForward(r.nextReset, r.interval, now), r.worldName)
  }

  /** The loop stops at the last whole step that is still before now, or at once if the first is not. */
  lemma {:induction false} RollForwardLeast(from: int, interval: int, now: int)
    requires interval > 0
    ensures RollForward(from, interval, now) == from + RollSteps(from, interval, now) * interval
    ensures RollForward(from, interval, now) + interval >= now
    ensures RollSteps(from, interval, now) > 0 ==> RollForward(from, interval, now) < now
    decreases now - from
  {
    if from + interval < now {
      var k := RollSteps(from + interval, interval, now);
      RollForwardLeast(from + interval, interval, now);
      assert (1 + k) * interval == interval + k * interval;
    }
  }

  /** The rolled entry is the least `nextReset + k * interval`, k >= 1, that is not before now. */
  lemma RolledSpec(r: ScheduledReset, now: int)
    requires r.interval > 0 && AuditReset(r, now)
    ensures var n := Rolled(r, now);
            var k := RollSteps(r.nextReset, r.interval, now) + 1;
            && n.worldName == r.worldName && n.interval == r.interval
            && n.nextReset == r.nextReset + k * r.interval
            && n.nextReset >= now && n.nextReset - r.interval < now
            && !AuditReset(n, now)
  {
    var k := RollSteps(r.nextReset, r.interval, now);
    RollForwardLeast(r.nextReset, r.interval, now);
    assert (k + 1) * r.interval == k * r.interval + r.interval;
  }

  /** deleteAny's precondition: the rollover loop only ends for positive intervals. */
  predicate OverdueHavePositiveIntervals(s: set<ScheduledReset>, now: int) {
    forall r :: r in s && AuditReset(r, now) ==> r.interval > 0
  }

  /** The entries deleteAny adds for the overdue members of `s` (all of which have positive intervals
      where deleteAny runs). */
  function RolledSet(s: set<ScheduledReset>, now: int): set<ScheduledReset> {
    set r | r in s && AuditReset(r, now) && r.interval > 0 :: Rolled(r, now)
  }

  /** The store after deleteAny: every overdue entry stays, and its rolled entry is added beside it. */
  function Rollover(s: set<ScheduledReset>, now: int): set<ScheduledReset> {
    s + RolledSet(s, now)
  }

  /** The region files deleteAny removes: those of every world with an overdue entry. */
  function Pruned(s: set<ScheduledReset>, files: set<seq<string>>, now: int): (r: set<seq<string>>)
    ensures r <= files
  {
    set p | p in files && |p| >= 2 && IsOuterRegion(p) && (exists x :: x in s && AuditReset(x, now) && x.worldName == p[0])
  }

  /** The overdue entry is not removed, so after deleteAny its world has two entries. */
  lemma OverdueEntryKept(s: set<ScheduledReset>, r: ScheduledReset, now: int)
    requires OverdueHavePositiveIntervals(s, now) && r in s && AuditReset(r, now)
    ensures r in Rollover(s, now) && Rolled(r, now) in Rollover(s, now)
    ensures r != Rolled(r, now) && r.worldName == Rolled(r, now).worldName
  {
    RolledSpec(r, now);
  }

  /** Entries that are not overdue come through deleteAny unchanged, and all added ones are not overdue. */
  lemma RolloverAddsOnlyCurrent(s: set<ScheduledReset>, now: int)
    requires OverdueHavePositiveIntervals(s, now)
    ensures s <= Rollover(s, now)
    ensures forall x :: x in Rollover(s, now) && x !in s ==> !AuditReset(x, now)
  {
    forall x | x in Rollover(s, now) && x !in s ensures !AuditReset(x, now) {
      var r :| r in s && AuditReset(r, now) && x == Rolled(r, now);
      RolledSpec(r, now);
    }
  }

  /** A second deleteAny at the same instant adds nothing more. */
  lemma RolloverIdempotent(s: set<ScheduledReset>, now: int)
    requires OverdueHavePositiveIntervals(s, now)
    ensures OverdueHavePositiveIntervals(Rollover(s, now), now)
    ensures Rollover(Rollover(s, now), now) == Rollover(s, now)
  {
    var t := Rollover(s, now);
    RolloverAddsOnlyCurrent(s, now);
    assert forall x :: x in t && AuditReset(x, now) ==> x in s;
    assert RolledSet(t, now) == RolledSet(s, now);
  }

  // ---------------------------------------------------------------------------
  // Broadcast selection (auditResets)

  /** Math.abs on the seconds difference. */
  function Abs(x: int): (r: nat)
    ensures r == x || r == -x
  {
    if x < 0 then -x else x
  }

  /** broadcast: the configured message with the three placeholders replaced in turn. */
  function BroadcastText(message: string, short: string, long: string, world: string): string {
    Utils.Replaced(Utils.Replaced(Utils.Replaced(message, Utils.TIME_LEFT, short), Utils.TIME_LEFT_LONG, long),
                   Utils.WORLD_NAME, world)
  }

  const NEXT_RESTART: string := "the next restart"

  /** Whether some configured moment is within three seconds of the time left. */
  predicate NearMoment(timeLeft: int, moments: set<int>) {
    exists m :: m in moments && Abs(timeLeft - m) < 3
  }

  /** The "the next restart" broadcast, sent when less than five seconds are left. */
  function ImminentBroadcasts(world: string, timeLeft: int, message: string): seq<string> {
    if timeLeft < 5 then [BroadcastText(message, NEXT_RESTART, NEXT_RESTART, world)] else []
  }

  /** The time-left broadcast, sent when the time left is near a configured moment. */
  function MomentBroadcasts(world: string, timeLeft: int, message: string, moments: set<int>): seq<string> {
    if NearMoment(timeLeft, moments) then [TimeLeftText(message, timeLeft, world)] else []
  }

  /** The time-left broadcast: the short and the long rendering of the time left. */
  function TimeLeftText(message: string, timeLeft: int, world: string): string {
    BroadcastText(message, Utils.ShortDuration(timeLeft), Utils.LongDuration(timeLeft), world)
  }

  /** The broadcasts of one entry: none when it is overdue; otherwise one "the next restart" broadcast
      under five seconds left, and one time-left broadcast near a configured moment. */
  function EntryBroadcasts(r: ScheduledReset, now: int, message: string, moments: set<int>): seq<string> {
    BroadcastsAt(r.worldName, TimeLeft(r, now), message, moments)
  }

  /** The broadcasts of an entry of `world` with `timeLeft` seconds to its reset; a negative time left is an
      overdue entry. */
  function BroadcastsAt(world: string, timeLeft: int, message: string, moments: set<int>): seq<string> {
    if timeLeft < 0 then []
    else ImminentBroadcasts(world, timeLeft, message) + MomentBroadcasts(world, timeLeft, message, moments)
  }

  /** The broadcasts of auditResets for the entries in iteration order. */
  function AuditBroadcasts(order: seq<ScheduledReset>, now: int, message: string, moments: set<int>)
    : (r: seq<string>)
    ensures |r| <= 2 * |order|
  {
    if order == [] then []
    else AuditBroadcasts(order[..|order| - 1], now, message, moments) +
         EntryBroadcasts(order[|order| - 1], now, message, moments)
  }

  /** auditResets never prunes: an overdue entry broadcasts nothing, however close a moment is. */
  lemma OverdueSilent(r: ScheduledReset, now: int, message: string, moments: set<int>)
    requires AuditReset(r, now)
    ensures EntryBroadcasts(r, now, message, moments) == []
  {
  }

  /** A message without placeholders is broadcast as it is. */
  lemma PlainBroadcast(message: string, short: string, long: string, world: string)
    requires forall j :: !Utils.OccursAt(message, Utils.TIME_LEFT, j)
    requires forall j :: !Utils.OccursAt(message, Utils.TIME_LEFT_LONG, j)
    requires forall j :: !Utils.OccursAt(message, Utils.WORLD_NAME, j)
    ensures BroadcastText(message, short, long, world) == message
  {
    Utils.ReplacedNoMatch(message, Utils.TIME_LEFT, short);
    Utils.ReplacedNoMatch(message, Utils.TIME_LEFT_LONG, long);
    Utils.ReplacedNoMatch(message, Utils.WORLD_NAME, world);
  }

  /** With no placeholders in the message, every broadcast of an entry is the message itself. */
  lemma EntryBroadcastsPlain(world: string, timeLeft: int, message: string, moments: set<int>)
    requires forall j :: !Utils.OccursAt(message, Utils.TIME_LEFT, j)
    requires forall j :: !Utils.OccursAt(message, Utils.TIME_LEFT_LONG, j)
    requires forall j :: !Utils.OccursAt(message, Utils.WORLD_NAME, j)
    ensures forall i :: 0 <= i < |BroadcastsAt(world, timeLeft, message, moments)| ==>
              BroadcastsAt(world, timeLeft, message, moments)[i] == message
  {
    PlainImminent(world, timeLeft, message);
    PlainMoment(world, timeLeft, message, moments);
    AllEqualConcat(ImminentBroadcasts(world, timeLeft, message), MomentBroadcasts(world, timeLeft, message, moments),
                   message);
  }

  lemma PlainImminent(world: string, timeLeft: int, message: string)
    requires forall j :: !Utils.OccursAt(message, Utils.TIME_LEFT, j)
    requires forall j :: !Utils.OccursAt(message, Utils.TIME_LEFT_LONG, j)
    requires forall j :: !Utils.OccursAt(message, Utils.WORLD_NAME, j)
    ensures forall i :: 0 <= i < |ImminentBroadcasts(world, timeLeft, message)| ==>
              ImminentBroadcasts(world, timeLeft, message)[i] == message
  {
    PlainBroadcast(message, NEXT_RESTART, NEXT_RESTART, world);
  }

  lemma PlainMoment(world: string, timeLeft: int, message: string, moments: set<int>)
    requires forall j :: !Utils.OccursAt(message, Utils.TIME_LEFT, j)
    requires forall j :: !Utils.OccursAt(message, Utils.TIME_LEFT_LONG, j)
    requires forall j :: !Utils.OccursAt(message, Utils.WORLD_NAME, j)
    ensures forall i :: 0 <= i < |MomentBroadcasts(world, timeLeft, message, moments)| ==>
              MomentBroadcasts(world, timeLeft, message, moments)[i] == message
  {
    PlainTimeLeft(message, timeLeft, world);
  }

  lemma AllEqualConcat(a: seq<string>, b: seq<string>, x: string)
    requires forall i :: 0 <= i < |a| ==> a[i] == x
    requires forall i :: 0 <= i < |b| ==> b[i] == x
    ensures forall i :: 0 <= i < |a + b| ==> (a + b)[i] == x
  {
  }

  lemma PlainTimeLeft(message: string, timeLeft: int, world: string)
    requires forall j :: !Utils.OccursAt(message, Utils.TIME_LEFT, j)
    requires forall j :: !Utils.OccursAt(message, Utils.TIME_LEFT_LONG, j)
    requires forall j :: !Utils.OccursAt(message, Utils.WORLD_NAME, j)
    ensures TimeLeftText(message, timeLeft, world) == message
  {
    PlainBroadcast(message, Utils.ShortDuration(timeLeft), Utils.LongDuration(timeLeft), world);
  }

  /** With no placeholders in the message, every broadcast is the message itself. */
  lemma {:induction false} AuditBroadcastsPlain(order: seq<ScheduledReset>, now: int, message: string,
                                                moments: set<int>)
    requires forall j :: !Utils.OccursAt(message, Utils.TIME_LEFT, j)
    requires forall j :: !Utils.OccursAt(message, Utils.TIME_LEFT_LONG, j)
    requires forall j :: !Utils.OccursAt(message, Utils.WORLD_NAME, j)
    ensures forall i :: 0 <= i < |AuditBroadcasts(order, now, message, moments)| ==>
              AuditBroadcasts(order, now, message, moments)[i] == message
  {
    if order != [] {
      var prefix := AuditBroadcasts(order[..|order| - 1], now, message, moments);
      var last := EntryBroadcasts(order[|order| - 1], now, message, moments);
      EntryPlain(order[|order| - 1], now, message, moments);
      AuditBroadcastsPlain(order[..|order| - 1], now, message, moments);
      AllEqualConcat(prefix, last, message);
      assert AuditBroadcasts(order, now, message, moments) == prefix + last;
    }
  }

  lemma EntryPlain(r: ScheduledReset, now: int, message: string, moments: set<int>)
    requires forall j :: !Utils.OccursAt(message, Utils.TIME_LEFT, j)
    requires forall j :: !Utils.OccursAt(message, Utils.TIME_LEFT_LONG, j)
    requires forall j :: !Utils.OccursAt(message, Utils.WORLD_NAME, j)
    ensures forall i :: 0 <= i < |EntryBroadcasts(r, now, message, moments)| ==>
              EntryBroadcasts(r, now, message, moments)[i] == message
  {
    EntryBroadcastsPlain(r.worldName, TimeLeft(r, now), message, moments);
  }

  /** An entry within five seconds of its reset and near a moment yields both broadcasts, in that order. */
  lemma ImminentEntry(r: ScheduledReset, now: int, message: string, moments: set<int>)
    requires now <= r.nextReset < now + 5 && NearMoment(TimeLeft(r, now), moments)
    ensures |EntryBroadcasts(r, now, message, moments)| == 2
    ensures EntryBroadcasts(r, now, message, moments)[0] == BroadcastText(message, NEXT_RESTART, NEXT_RESTART, r.worldName)
  {
  }

  /** The time-left broadcast is sent exactly when some moment is within three seconds of the time left. */
  lemma MomentWindow(r: ScheduledReset, now: int, message: string, moments: set<int>)
    requires !AuditReset(r, now) && TimeLeft(r, now) >= 5
    ensures |EntryBroadcasts(r, now, message, moments)| == 1 <==>
            exists m :: m in moments && TimeLeft(r, now) - 3 < m < TimeLeft(r, now) + 3
    ensures |EntryBroadcasts(r, now, message, moments)| <= 1
  {
    var t := TimeLeft(r, now);
    if exists m :: m in moments && t - 3 < m < t + 3 {
      var m :| m in moments && t - 3 < m < t + 3;
      assert Abs(t - m) < 3;
    }
  }

  // ---------------------------------------------------------------------------
  // The handler

  class WorldsDataHandler {
    var scheduledResets: set<ScheduledReset>
    var broadcastMoments: set<int>
    var isShuttingDown: bool

    constructor()
      ensures scheduledResets == {} && broadcastMoments == {} && !isShuttingDown
    {
      scheduledResets := {};
      broadcastMoments := {};
      isShuttingDown := false;
    }

    /** load: adds the stored resets and the parsed broadcast moments; `ok` is false where it throws. */
    method Load(doc: WorldsDocument, priorReset: seq<Yaml.Value>) returns (ok: bool)
      modifies this
      ensures isShuttingDown == old(isShuttingDown)
      ensures ok <==> StoredResets(doc).Some? && Moments(priorReset).Some?
      ensures scheduledResets == old(scheduledResets) + StoredResets(doc).GetOr({})
      ensures broadcastMoments == old(broadcastMoments) +
                (if StoredResets(doc).Some? then Moments(priorReset).GetOr({}) else {})
    {
      var stored := StoredResets(doc);
      if stored.None? {
        return false;
      }
      scheduledResets := scheduledResets + stored.value;
      var moments := Moments(priorReset);
      if moments.None? {
        return false;
      }
      broadcastMoments := broadcastMoments + moments.value;
      ok := true;
    }

    /** save: the resets, written as a JSON array in the set's iteration order. */
    method Save() returns (doc: WorldsDocument)
      ensures doc.JsonArray? && Enumerates(doc.resets, scheduledResets)
    {
      var pending := scheduledResets;
      var written: seq<ScheduledReset> := [];
      while pending != {}
        invariant pending <= scheduledResets
        invariant forall i :: 0 <= i < |written| ==> written[i] in scheduledResets && written[i] !in pending
        invariant forall x :: x in scheduledResets ==> x in pending || x in written
        invariant forall i, j :: 0 <= i < j < |written| ==> written[i] != written[j]
        decreases |pending|
      {
        ghost var some := Member(pending);
        var r :| r in pending;
        written := written + [r];
        pending := pending - {r};
      }
      doc := JsonArray(written);
    }

    /** shutdown: raises the flag, then clears both sets. */
    method Shutdown()
      modifies this
      ensures isShuttingDown && scheduledResets == {} && broadcastMoments == {}
    {
      isShuttingDown := true;
      scheduledResets := {};
      broadcastMoments := {};
    }

    /** getScheduledResets: a copy of the store. */
    method GetScheduledResets() returns (copy: set<ScheduledReset>)
      ensures copy == scheduledResets
    {
      copy := scheduledResets;
    }

    /** schedule: drops every entry for the world in any casing and adds a fresh one; the result is
        SuccessOther exactly when something was dropped. */
    method Schedule(worldName: string, interval: int, now: int) returns (result: WorldOperationResult)
      modifies this
      ensures scheduledResets == Scheduled(old(scheduledResets), worldName, interval, now)
      ensures result == SuccessOther <==> HasWorld(old(scheduledResets), worldName)
      ensures broadcastMoments == old(broadcastMoments) && isShuttingDown == old(isShuttingDown)
    {
      var remaining := WithoutWorld(scheduledResets, worldName);
      var removed := remaining != scheduledResets;
      RemovedIffHasWorld(scheduledResets, worldName);
      scheduledResets := remaining + {NewResetNow(interval, worldName, now)};
      result := if removed then SuccessOther else SuccessRescheduled;
    }

    /** unschedule: drops every entry for the world in any casing and says whether there was one. */
    method Unschedule(worldName: string) returns (removed: bool)
      modifies this
      ensures scheduledResets == WithoutWorld(old(scheduledResets), worldName)
      ensures removed <==> HasWorld(old(scheduledResets), worldName)
      ensures broadcastMoments == old(broadcastMoments) && isShuttingDown == old(isShuttingDown)
    {
      var remaining := WithoutWorld(scheduledResets, worldName);
      removed := remaining != scheduledResets;
      RemovedIffHasWorld(scheduledResets, worldName);
      scheduledResets := remaining;
    }

    /** deleteAny: for each overdue entry of a copy of the store, deletes the world's outer region files
        and adds the entry rolled forward by whole intervals. */
    method DeleteAny(now: int, files: set<seq<string>>) returns (deleted: set<seq<string>>)
      requires OverdueHavePositiveIntervals(scheduledResets, now)
      modifies this`scheduledResets
      ensures scheduledResets == Rollover(old(scheduledResets), now)
      ensures deleted == Pruned(old(scheduledResets), files, now)
      ensures broadcastMoments == old(broadcastMoments) && isShuttingDown == old(isShuttingDown)
    {
      var copy := scheduledResets;
      var pending := copy;
      ghost var done: set<ScheduledReset> := {};
      deleted := {};
      while pending != {}
        invariant copy == old(scheduledResets) && OverdueHavePositiveIntervals(copy, now)
        invariant pending <= copy && done == copy - pending
        invariant scheduledResets == copy + RolledSet(done, now)
        invariant deleted == Pruned(done, files, now)
        decreases |pending|
      {
        ghost var some := Member(pending);
        var reset :| reset in pending;
        pending := pending - {reset};
        DeleteAnyStep(copy, done, reset, now, files, scheduledResets, deleted);
        done := done + {reset};
        var regions := RollOverEntry(reset, now, files);
        deleted := deleted + regions;
      }
      assert done == copy;
    }

    /** The body of deleteAny's loop for one entry of the copy. */
    method RollOverEntry(reset: ScheduledReset, now: int, files: set<seq<string>>) returns (regions: set<seq<string>>)
      requires AuditReset(reset, now) ==> reset.interval > 0
      modifies this`scheduledResets
      ensures scheduledResets == old(scheduledResets) + (if AuditReset(reset, now) then {Rolled(reset, now)} else {})
      ensures regions == if AuditReset(reset, now) then RegionsOf(files, reset.worldName) else {}
      ensures broadcastMoments == old(broadcastMoments) && isShuttingDown == old(isShuttingDown)
    {
      regions := {};
      if AuditReset(reset, now) {
        regions := RegionsOf(files, reset.worldName);
        var nextResetFrom := RollForwardLoop(reset.nextReset, reset.interval, now);
        scheduledResets := scheduledResets + {NewReset(reset.interval, nextResetFrom, reset.worldName)};
      }
    }

    /** auditResets: nothing while shutting down; otherwise the broadcasts of every entry of a copy of the
        store, in `order`, the store's iteration order. The store is only read. */
    method AuditResets(now: int, message: string, order: seq<ScheduledReset>) returns (broadcasts: seq<string>)
      requires Enumerates(order, scheduledResets)
      requires forall r :: r in scheduledResets ==> Utils.Literal(r.worldName)
      ensures isShuttingDown ==> broadcasts == []
      ensures !isShuttingDown ==> broadcasts == AuditBroadcasts(order, now, message, broadcastMoments)
    {
      broadcasts := [];
      if isShuttingDown {
        return;
      }
      var i := 0;
      while i < |order|
        invariant i <= |order|
        invariant broadcasts == AuditBroadcasts(order[..i], now, message, broadcastMoments)
      {
        var reset := order[i];
        assert order[..i + 1][..i] == order[..i];
        var entry := ResetBroadcasts(reset, now, message);
        broadcasts := broadcasts + entry;
        i := i + 1;
      }
      assert order[..i] == order;
    }

    /** The body of auditResets' loop for one entry: skipped when overdue, else the two checks. */
    method ResetBroadcasts(reset: ScheduledReset, now: int, message: string) returns (entry: seq<string>)
      requires Utils.Literal(reset.worldName)
      ensures entry == EntryBroadcasts(reset, now, message, broadcastMoments)
    {
      entry := [];
      if AuditReset(reset, now) {
        return;
      }
      var timeLeft := TimeLeft(reset, now);
      var imminent: seq<string> := [];
      if timeLeft < 5 {
        NextRestartLiteral();
        var text := Broadcast(message, NEXT_RESTART, NEXT_RESTART, reset.worldName);
        imminent := [text];
      }
      assert imminent == ImminentBroadcasts(reset.worldName, timeLeft, message);
      var near: seq<string> := [];
      var found := FirstNearMoment(timeLeft);
      if found {
        var text := TimeLeftBroadcast(message, timeLeft, reset.worldName);
        near := [text];
      }
      assert near == MomentBroadcasts(reset.worldName, timeLeft, message, broadcastMoments);
      entry := imminent + near;
    }

    /** The inner loop of auditResets: runs through the moments and stops at the first one near enough. */
    method FirstNearMoment(timeLeft: int) returns (found: bool)
      ensures found <==> NearMoment(timeLeft, broadcastMoments)
    {
      var pending := broadcastMoments;
      found := false;
      while pending != {}
        invariant pending <= broadcastMoments
        invariant forall m :: m in broadcastMoments && m !in pending ==> Abs(timeLeft - m) >= 3
        decreases |pending|
      {
        ghost var some := Member(pending);
        var moment :| moment in pending;
        if Abs(timeLeft - moment) < 3 {
          return true;
        }
        pending := pending - {moment};
      }
    }

    /** broadcast with the short and the long rendering of the time left. */
    method TimeLeftBroadcast(message: string, timeLeft: int, world: string) returns (text: string)
      requires Utils.Literal(world)
      ensures text == TimeLeftText(message, timeLeft, world)
    {
      Utils.RenderingsLiteral(timeLeft);
      text := Broadcast(message, Utils.ShortDuration(timeLeft), Utils.LongDuration(timeLeft), world);
    }

    /** broadcast: the three replaceAll calls on the configured message. */
    method Broadcast(message: string, short: string, long: string, world: string) returns (text: string)
      requires Utils.Literal(short) && Utils.Literal(long) && Utils.Literal(world)
      ensures text == BroadcastText(message, short, long, world)
    {
      text := Utils.ReplaceAll(Utils.TIME_LEFT, message, short);
      text := Utils.ReplaceAll(Utils.TIME_LEFT_LONG, text, long);
      text := Utils.ReplaceAll(Utils.WORLD_NAME, text, world);
    }
  }

  /** The while loop of deleteAny. */
  method RollForwardLoop(nextReset: int, interval: int, now: int) returns (nextResetFrom: int)
    requires interval > 0
    ensures nextResetFrom == RollForward(nextReset, interval, now)
  {
    nextResetFrom := nextReset;
    while nextResetFrom + interval < now
      invariant RollForward(nextResetFrom, interval, now) == RollForward(nextReset, interval, now)
      decreases now - nextResetFrom
    {
      nextResetFrom := nextResetFrom + interval;
    }
  }

  lemma NextRestartLiteral()
    ensures Utils.Literal(NEXT_RESTART)
  {
  }

  /** One turn of deleteAny's loop keeps its invariant. */
  lemma DeleteAnyStep(copy: set<ScheduledReset>, done: set<ScheduledReset>, reset: ScheduledReset, now: int,
                      files: set<seq<string>>, resets: set<ScheduledReset>, deleted: set<seq<string>>)
    requires AuditReset(reset, now) ==> reset.interval > 0
    requires resets == copy + RolledSet(done, now) && deleted == Pruned(done, files, now)
    ensures resets + (if AuditReset(reset, now) then {Rolled(reset, now)} else {})
         == copy + RolledSet(done + {reset}, now)
    ensures deleted + (if AuditReset(reset, now) then RegionsOf(files, reset.worldName) else {})
         == Pruned(done + {reset}, files, now)
  {
    RolledSetStep(done, reset, now);
    PrunedStep(done, reset, files, now);
  }

  lemma RolledSetStep(done: set<ScheduledReset>, r: ScheduledReset, now: int)
    requires AuditReset(r, now) ==> r.interval > 0
    ensures RolledSet(done + {r}, now) == RolledSet(done, now) + (if AuditReset(r, now) then {Rolled(r, now)} else {})
  {
  }

  lemma PrunedStep(done: set<ScheduledReset>, r: ScheduledReset, files: set<seq<string>>, now: int)
    ensures Pruned(done + {r}, files, now) == Pruned(done, files, now) + (if AuditReset(r, now) then RegionsOf(files, r.worldName) else {})
  {
  }
}
