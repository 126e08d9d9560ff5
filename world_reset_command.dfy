/**
 * WorldResetCommand: what each handler of /worldreset sends, whether it changes the schedule store and
 * whether it saves it. Messages are tags with their arguments; the host's world registry is a set of
 * names; brigadier's parse of the input is given as its results.
 */
module WorldResetCommands {
  import opened Wrappers
  import opened JavaLang
  import opened ScheduledResets
  import opened WorldsDataHandlers
  import opened ConfigKeyTypes
  import ConfigKeys
  import YamlConfigAdapters
  import DurationArgumentType
  import Utils

  /** The messages the command sends, with their arguments; durations are in seconds. */
  datatype Message =
    | PluginInfo
    | NoPermission
    | ConsoleIncompleteCommand(what: string)
    | ScheduledSuccessfully(world: string, interval: int)
    | RescheduledSuccessfully(world: string, interval: int)
    | UnscheduledSuccessfully(world: string)
    | WasntScheduled(world: string)
    | ListTitle
    | ListElement(world: string, until: int, interval: int)
    | ListNoElement
    | ErrorWhileSaving
    | UsageTitle
    | UsagesCommand(usage: string)
    | UnknownWorld(world: string)
    | CommandError(error: string)

  /** The sender: the world it stands in when it exists in one (a player), none for the console. */
  datatype Subject = Subject(world: Option<string>)

  const PROVIDE_A_WORLD: string := "provide a world"

  /** The interval argument of `schedule <world> <interval>` is a duration of at least ten seconds. */
  const MINIMUM_INTERVAL: int := 10

  /** An interval the interval argument accepts: brigadier rejects a shorter one before any handler runs. */
  type Interval = i: int | i >= MINIMUM_INTERVAL witness MINIMUM_INTERVAL

  /** The interval argument's parse: the duration argument type with a ten-second minimum and no maximum. */
  function IntervalArgument(text: string): (r: Result<int, DurationArgumentType.ParseError>)
    ensures r.Ok? ==> r.value >= MINIMUM_INTERVAL
    ensures r.Err? && r.error.TooSmall? ==> r.error.found < MINIMUM_INTERVAL
    ensures !(r.Err? && r.error.TooBig?)
  {
    DurationArgumentType.ParseSpec(text, Some(MINIMUM_INTERVAL), None)
  }

  /** The minimum only filters the unbounded parse: a duration below ten seconds becomes too-small, any
      other duration and any parse error pass through unchanged. */
  lemma IntervalArgumentFilters(text: string)
    ensures var unbounded := DurationArgumentType.ParseSpec(text, None, None);
            && (unbounded.Err? ==> IntervalArgument(text) == unbounded)
            && (unbounded.Ok? && unbounded.value < MINIMUM_INTERVAL ==>
                  IntervalArgument(text) == Err(DurationArgumentType.TooSmall(unbounded.value, MINIMUM_INTERVAL)))
            && (unbounded.Ok? && unbounded.value >= MINIMUM_INTERVAL ==> IntervalArgument(text) == unbounded)
  {
  }

  // ---------------------------------------------------------------------------
  // Suggestions

  /** Every option whose lower-cased form starts with prefix is suggested, and only those. */
  lemma FilteredAll(options: seq<string>, prefix: string)
    ensures forall w :: w in Utils.Filtered(options, prefix) <==> w in options && StartsWith(ToLower(w), prefix)
  {
    forall w {
      Utils.FilteredMembers(options, prefix, w);
    }
  }

  /** The world names of the store, in its iteration order. */
  function WorldNames(order: seq<ScheduledReset>): (r: seq<string>)
    ensures |r| == |order| && forall i :: 0 <= i < |order| ==> r[i] == order[i].worldName
  {
    seq(|order|, i requires 0 <= i < |order| => order[i].worldName)
  }

  /** suggestScheduledWorlds: the scheduled world names whose lower-cased form starts with the lower-cased
      remaining input (which is not trimmed). */
  function SuggestScheduledWorlds(order: seq<ScheduledReset>, remaining: string): (r: seq<string>)
    ensures |r| <= |order|
    ensures forall w :: w in r <==>
              (exists i :: 0 <= i < |order| && order[i].worldName == w) && StartsWith(ToLower(w), ToLower(remaining))
  {
    var names := WorldNames(order);
    FilteredAll(names, ToLower(remaining));
    Utils.Filtered(names, ToLower(remaining))
  }

  /** suggestWorlds: the host's world names whose lower-cased form starts with the lower-cased remaining
      input. */
  function SuggestWorlds(worlds: seq<string>, remaining: string): (r: seq<string>)
    ensures |r| <= |worlds|
    ensures forall w :: w in r <==> w in worlds && StartsWith(ToLower(w), ToLower(remaining))
  {
    FilteredAll(worlds, ToLower(remaining));
    Utils.Filtered(worlds, ToLower(remaining))
  }

  /** Only worlds of the store are offered for unscheduling, and every offer extends the typed text. */
  lemma SuggestionsExtendInput(order: seq<ScheduledReset>, s: set<ScheduledReset>, remaining: string, w: string)
    requires Enumerates(order, s)
    requires w in SuggestScheduledWorlds(order, remaining)
    ensures exists x :: x in s && x.worldName == w
    ensures StartsWith(ToLower(w), ToLower(remaining))
  {
    var i :| 0 <= i < |order| && order[i].worldName == w;
    assert order[i] in s;
  }

  // ---------------------------------------------------------------------------
  // What each handler does, as functions of the store

  /** The store afterwards, the messages sent and whether save was called. */
  datatype Outcome = Outcome(resets: set<ScheduledReset>, sent: seq<Message>, saved: bool)

  /** What a save adds: ERROR_WHILE_SAVING when writing fails. */
  function SaveMessages(saveFails: bool): seq<Message> {
    if saveFails then [ErrorWhileSaving] else []
  }

  /** schedule(worldName, interval, subject). */
  function ScheduleOutcome(resets: set<ScheduledReset>, worldName: string, interval: int, now: int,
                           worlds: set<string>, saveFails: bool): Outcome
  {
    if worldName !in worlds then Outcome(resets, [UnknownWorld(worldName)], false)
    else
      var reply := if HasWorld(resets, worldName) then ScheduledSuccessfully(worldName, interval)
                   else RescheduledSuccessfully(worldName, interval);
      Outcome(Scheduled(resets, worldName, interval, now), [reply] + SaveMessages(saveFails), true)
  }

  /** unschedule(worldName, subject). */
  function UnscheduleOutcome(resets: set<ScheduledReset>, worldName: string, worlds: set<string>,
                             saveFails: bool): Outcome
  {
    if worldName !in worlds then Outcome(resets, [UnknownWorld(worldName)], false)
    else if HasWorld(resets, worldName) then
      Outcome(WithoutWorld(resets, worldName), [UnscheduledSuccessfully(worldName)] + SaveMessages(saveFails), true)
    else Outcome(resets, [WasntScheduled(worldName)], false)
  }

  /** An unknown world is reported and nothing else happens, for scheduling and unscheduling alike. */
  lemma UnknownWorldUntouched(resets: set<ScheduledReset>, worldName: string, interval: int, now: int,
                              worlds: set<string>, saveFails: bool)
    requires worldName !in worlds
    ensures ScheduleOutcome(resets, worldName, interval, now, worlds, saveFails) == Outcome(resets, [UnknownWorld(worldName)], false)
    ensures UnscheduleOutcome(resets, worldName, worlds, saveFails) == Outcome(resets, [UnknownWorld(worldName)], false)
  {
  }

  /** Scheduling a known world always saves and leaves exactly one entry for it. Because the results of
      the store are named backwards, a world that already had an entry gets SCHEDULED_SUCCESSFULLY and a
      world scheduled for the first time gets RESCHEDULED_SUCCESSFULLY. */
  lemma ScheduleReplies(resets: set<ScheduledReset>, worldName: string, interval: int, now: int,
                        worlds: set<string>, saveFails: bool)
    requires worldName in worlds
    ensures var o := ScheduleOutcome(resets, worldName, interval, now, worlds, saveFails);
            && o.saved
            && NewResetNow(interval, worldName, now) in o.resets
            && (forall x :: x in o.resets && EqualsIgnoreCase(x.worldName, worldName) ==> x == NewResetNow(interval, worldName, now))
            && (o.sent[0] == ScheduledSuccessfully(worldName, interval) <==> HasWorld(resets, worldName))
            && (o.sent[0] == RescheduledSuccessfully(worldName, interval) <==> !HasWorld(resets, worldName))
            && (ErrorWhileSaving in o.sent <==> saveFails)
  {
    ScheduleLeavesOne(resets, worldName, interval, now);
  }

  /** Unscheduling saves exactly when an entry was removed; a world without entries gets WASNT_SCHEDULED
      and the store is left as it was. Afterwards no entry for the world remains either way. */
  lemma UnscheduleReplies(resets: set<ScheduledReset>, worldName: string, worlds: set<string>, saveFails: bool)
    requires worldName in worlds
    ensures var o := UnscheduleOutcome(resets, worldName, worlds, saveFails);
            && (o.saved <==> HasWorld(resets, worldName))
            && (o.sent[0] == UnscheduledSuccessfully(worldName) <==> HasWorld(resets, worldName))
            && (o.sent[0] == WasntScheduled(worldName) <==> !HasWorld(resets, worldName))
            && !HasWorld(o.resets, worldName)
            && o.resets == WithoutWorld(resets, worldName)
  {
    RemovedIffHasWorld(resets, worldName);
    UnscheduleTwice(resets, worldName);
  }

  /** An immediate second unschedule of the same world reports WASNT_SCHEDULED and does not save. */
  lemma UnscheduleRepeat(resets: set<ScheduledReset>, worldName: string, worlds: set<string>, f1: bool, f2: bool)
    requires worldName in worlds
    ensures var first := UnscheduleOutcome(resets, worldName, worlds, f1);
            UnscheduleOutcome(first.resets, worldName, worlds, f2) == Outcome(first.resets, [WasntScheduled(worldName)], false)
  {
    UnscheduleTwice(resets, worldName);
  }

  /** A LIST_SCHEDULED_RESETS_ELEMENT per entry, in iteration order: the time until its next reset and its
      interval. */
  function Elements(order: seq<ScheduledReset>, now: int): (r: seq<Message>)
    ensures |r| == |order|
  {
    seq(|order|, i requires 0 <= i < |order| => ListElement(order[i].worldName, TimeLeft(order[i], now), order[i].interval))
  }

  /** list: the title, then NO_ELEMENT for an empty store or one element per entry. */
  function ListMessages(order: seq<ScheduledReset>, now: int): seq<Message> {
    [ListTitle] + if order == [] then [ListNoElement] else Elements(order, now)
  }

  /** The listing names every entry of the store exactly once, after the title, and says so when there is
      none. */
  lemma ListMessagesSpec(order: seq<ScheduledReset>, s: set<ScheduledReset>, now: int)
    requires Enumerates(order, s)
    ensures var sent := ListMessages(order, now);
            && sent[0] == ListTitle
            && (s == {} <==> sent == [ListTitle, ListNoElement])
            && (s != {} ==> |sent| == 1 + |s|)
            && (forall x :: x in s ==> ListElement(x.worldName, TimeLeft(x, now), x.interval) in sent)
            && (forall i :: 1 <= i < |sent| && sent[i].ListElement? ==>
                  exists x :: x in s && sent[i] == ListElement(x.worldName, TimeLeft(x, now), x.interval))
  {
    EnumerationSize(order, s);
    var sent := ListMessages(order, now);
    if s != {} {
      forall x | x in s
        ensures ListElement(x.worldName, TimeLeft(x, now), x.interval) in sent
      {
        var i :| 0 <= i < |order| && order[i] == x;
        assert sent[i + 1] == ListElement(x.worldName, TimeLeft(x, now), x.interval);
      }
      forall i | 1 <= i < |sent| && sent[i].ListElement?
        ensures exists x :: x in s && sent[i] == ListElement(x.worldName, TimeLeft(x, now), x.interval)
      {
        assert order[i - 1] in s;
      }
    }
  }

  /** An enumeration lists as many elements as the set holds. */
  lemma {:induction false} EnumerationSize<T>(order: seq<T>, s: set<T>)
    requires Enumerates(order, s)
    ensures |order| == |s|
    ensures order == [] <==> s == {}
  {
    if order != [] {
      var last := order[|order| - 1];
      var init := order[..|order| - 1];
      assert order[0] in s;
      assert Enumerates(init, s - {last}) by {
        forall x | x in s - {last}
          ensures exists i :: 0 <= i < |init| && init[i] == x
        {
          var i :| 0 <= i < |order| && order[i] == x;
          assert i < |order| - 1;
          assert init[i] == x;
        }
      }
      EnumerationSize(init, s - {last});
    }
  }

  /** The usage title followed by one line per usage the dispatcher reports. */
  function UsageMessages(usages: seq<string>): (r: seq<Message>)
    ensures |r| == |usages| + 1 && r[0] == UsageTitle
    ensures forall i :: 0 <= i < |usages| ==> r[i + 1] == UsagesCommand(usages[i])
  {
    [UsageTitle] + seq(|usages|, i requires 0 <= i < |usages| => UsagesCommand(usages[i]))
  }

  /** One COMMAND_ERROR per parse exception, in iteration order. */
  function ErrorMessages(errors: seq<string>): (r: seq<Message>)
    ensures |r| == |errors|
    ensures forall i :: 0 <= i < |errors| ==> r[i] == CommandError(errors[i])
  {
    seq(|errors|, i requires 0 <= i < |errors| => CommandError(errors[i]))
  }

  // ---------------------------------------------------------------------------
  // Dispatch

  /** The handler of the node brigadier parsed last, with the arguments it read. The interval of
      ScheduleWorldWithInterval is what the interval argument parsed (IntervalArgument), so at least the
      minimum. */
  datatype Invocation =
    | ScheduleDefault
    | ScheduleWorld(world: string)
    | ScheduleWorldWithInterval(world: string, interval: Interval)
    | UnscheduleCurrent
    | UnscheduleWorld(world: string)
    | List
    | Help

  /** dispatcher.parse's results: how many nodes were parsed (none when the sender lacks the permission),
      the messages of the parse exceptions, and the handler to run, absent when the last node has none. */
  datatype ParseResults = ParseResults(nodes: nat, exceptions: seq<string>, command: Option<Invocation>)

  /** What running a handler does; defaultInterval is the configured default-reset-interval. */
  function RunOutcome(inv: Invocation, resets: set<ScheduledReset>, subject: Subject, worlds: set<string>, now: int,
                      saveFails: bool, defaultInterval: int, order: seq<ScheduledReset>, usages: seq<string>): Outcome
  {
    match inv
    case ScheduleDefault =>
      if subject.world.None? then Outcome(resets, [ConsoleIncompleteCommand(PROVIDE_A_WORLD)], false)
      else ScheduleOutcome(resets, subject.world.value, defaultInterval, now, worlds, saveFails)
    case ScheduleWorld(w) => ScheduleOutcome(resets, w, defaultInterval, now, worlds, saveFails)
    case ScheduleWorldWithInterval(w, interval) => ScheduleOutcome(resets, w, interval, now, worlds, saveFails)
    case UnscheduleCurrent =>
      if subject.world.None? then Outcome(resets, [ConsoleIncompleteCommand(PROVIDE_A_WORLD)], false)
      else UnscheduleOutcome(resets, subject.world.value, worlds, saveFails)
    case UnscheduleWorld(w) => UnscheduleOutcome(resets, w, worlds, saveFails)
    case List => Outcome(resets, ListMessages(order, now), false)
    case Help => Outcome(resets, [PluginInfo] + UsageMessages(usages), false)
  }

  /** execute: NO_PERMISSION when nothing was parsed, the parse errors when there are any, the usages when
      the parsed node cannot run, and otherwise the handler. */
  function ExecuteOutcome(results: ParseResults, resets: set<ScheduledReset>, subject: Subject, worlds: set<string>,
                          now: int, saveFails: bool, defaultInterval: int, order: seq<ScheduledReset>,
                          usages: seq<string>): Outcome
  {
    if results.nodes == 0 then Outcome(resets, [NoPermission], false)
    else if results.exceptions != [] then Outcome(resets, ErrorMessages(results.exceptions), false)
    else match results.command
      case None => Outcome(resets, UsageMessages(usages), false)
      case Some(inv) => RunOutcome(inv, resets, subject, worlds, now, saveFails, defaultInterval, order, usages)
  }

  /** Whether the run reads the configured default interval. */
  predicate ReadsDefault(results: ParseResults, subject: Subject) {
    && results.nodes > 0 && results.exceptions == []
    && ((results.command == Some(ScheduleDefault) && subject.world.Some?) || (results.command.Some? && results.command.value.ScheduleWorld?))
  }

  /** A parse failure or a missing permission runs no handler: the store is untouched and nothing is saved. */
  lemma RejectedRunsNothing(results: ParseResults, resets: set<ScheduledReset>, subject: Subject, worlds: set<string>,
                            now: int, saveFails: bool, defaultInterval: int, order: seq<ScheduledReset>, usages: seq<string>)
    requires results.nodes == 0 || results.exceptions != []
    ensures var o := ExecuteOutcome(results, resets, subject, worlds, now, saveFails, defaultInterval, order, usages);
            && o.resets == resets && !o.saved
            && (results.nodes == 0 ==> o.sent == [NoPermission])
            && (results.nodes > 0 ==> |o.sent| == |results.exceptions| && forall m :: m in o.sent ==> m.CommandError?)
  {
  }

  /** The console gets CONSOLE_INCOMPLETE_COMMAND from the forms without a world argument, and nothing else
      happens. */
  lemma ConsoleNeedsWorld(inv: Invocation, resets: set<ScheduledReset>, worlds: set<string>, now: int, saveFails: bool,
                          defaultInterval: int, order: seq<ScheduledReset>, usages: seq<string>)
    requires inv == ScheduleDefault || inv == UnscheduleCurrent
    ensures RunOutcome(inv, resets, Subject(None), worlds, now, saveFails, defaultInterval, order, usages)
         == Outcome(resets, [ConsoleIncompleteCommand(PROVIDE_A_WORLD)], false)
  {
  }

  /** The interval form schedules the world with the interval it read, so every entry it leaves for the world
      has an interval of at least ten seconds. */
  lemma IntervalFormSchedules(w: string, interval: Interval, resets: set<ScheduledReset>, subject: Subject,
                              worlds: set<string>, now: int, saveFails: bool, defaultInterval: int,
                              order: seq<ScheduledReset>, usages: seq<string>)
    requires w in worlds
    ensures var o := RunOutcome(ScheduleWorldWithInterval(w, interval), resets, subject, worlds, now, saveFails,
                                defaultInterval, order, usages);
            && NewResetNow(interval, w, now) in o.resets
            && (forall x :: x in o.resets && EqualsIgnoreCase(x.worldName, w) ==> x.interval >= MINIMUM_INTERVAL)
  {
    ScheduleLeavesOne(resets, w, interval, now);
  }

  /** The configured default interval: get(DEFAULT_RESET_INTERVAL) on a typed memo is a duration. */
  function ConfiguredInterval(unwind: map<string, Setting>, root: map<string, Yaml.Value>): (seconds: int)
    requires YamlConfigAdapters.TypedMemo(unwind)
    ensures YamlConfigAdapters.Memo(unwind, root, ConfigKeys.DEFAULT_RESET_INTERVAL).0 == Ok(DurationSetting(seconds))
  {
    DefaultIsDuration();
    YamlConfigAdapters.MemoTyped(unwind, root, 0);
    YamlConfigAdapters.Memo(unwind, root, ConfigKeys.DEFAULT_RESET_INTERVAL).0.value.seconds
  }

  lemma DefaultIsDuration()
    ensures ConfigKeys.CONFIG_KEYS[0] == ConfigKeys.DEFAULT_RESET_INTERVAL
    ensures ConfigKeys.DEFAULT_RESET_INTERVAL.fallback.DurationSetting?
  {
  }

  class WorldResetCommand {
    const handler: WorldsDataHandler
    const config: YamlConfigAdapters.YamlConfigAdapter

    constructor(handler: WorldsDataHandler, config: YamlConfigAdapters.YamlConfigAdapter)
      ensures this.handler == handler && this.config == config
    {
      this.handler := handler;
      this.config := config;
    }

    /** configAdapter.get(ConfigKeys.DEFAULT_RESET_INTERVAL). */
    method DefaultInterval() returns (interval: int)
      modifies config
      requires config.Typed()
      ensures config.Typed() && config.rootRaw == old(config.rootRaw)
      ensures interval == ConfiguredInterval(old(config.unwind), config.rootRaw)
      ensures config.unwind == YamlConfigAdapters.Memo(old(config.unwind), config.rootRaw, ConfigKeys.DEFAULT_RESET_INTERVAL).1
    {
      DefaultIsDuration();
      YamlConfigAdapters.MemoTyped(config.unwind, config.rootRaw, 0);
      var value := config.Get(ConfigKeys.DEFAULT_RESET_INTERVAL);
      interval := value.value.seconds;
    }

    /** schedule(worldName, interval, subject); written is the document save wrote, if it was called. */
    method Schedule(worldName: string, interval: int, now: int, worlds: set<string>, saveFails: bool)
      returns (sent: seq<Message>, written: Option<WorldsDocument>)
      modifies handler
      ensures var o := ScheduleOutcome(old(handler.scheduledResets), worldName, interval, now, worlds, saveFails);
              handler.scheduledResets == o.resets && sent == o.sent && written.Some? == o.saved
      ensures written.Some? ==> written.value.JsonArray? && Enumerates(written.value.resets, handler.scheduledResets)
      ensures handler.broadcastMoments == old(handler.broadcastMoments) && handler.isShuttingDown == old(handler.isShuttingDown)
    {
      if worldName !in worlds {
        return [UnknownWorld(worldName)], None;
      }
      var result := handler.Schedule(worldName, interval, now);
      match result {
        case SuccessOther => sent := [ScheduledSuccessfully(worldName, interval)];
        case SuccessRescheduled => sent := [RescheduledSuccessfully(worldName, interval)];
      }
      var document := handler.Save();
      written := Some(document);
      if saveFails {
        sent := sent + [ErrorWhileSaving];
      }
    }

    /** unschedule(worldName, subject). */
    method Unschedule(worldName: string, worlds: set<string>, saveFails: bool)
      returns (sent: seq<Message>, written: Option<WorldsDocument>)
      modifies handler
      ensures var o := UnscheduleOutcome(old(handler.scheduledResets), worldName, worlds, saveFails);
              handler.scheduledResets == o.resets && sent == o.sent && written.Some? == o.saved
      ensures written.Some? ==> written.value.JsonArray? && Enumerates(written.value.resets, handler.scheduledResets)
      ensures handler.broadcastMoments == old(handler.broadcastMoments) && handler.isShuttingDown == old(handler.isShuttingDown)
    {
      if worldName !in worlds {
        return [UnknownWorld(worldName)], None;
      }
      RemovedIffHasWorld(handler.scheduledResets, worldName);
      var removed := handler.Unschedule(worldName);
      if removed {
        sent := [UnscheduledSuccessfully(worldName)];
        var document := handler.Save();
        written := Some(document);
        if saveFails {
          sent := sent + [ErrorWhileSaving];
        }
      } else {
        sent := [WasntScheduled(worldName)];
        written := None;
      }
    }

    /** list: the title, then the entries of a copy of the store in its iteration order. */
    method List(now: int, order: seq<ScheduledReset>) returns (code: int, sent: seq<Message>)
      requires Enumerates(order, handler.scheduledResets)
      ensures code == 1 && sent == ListMessages(order, now)
    {
      sent := [ListTitle];
      var resets := handler.GetScheduledResets();
      EnumerationSize(order, resets);
      if resets == {} {
        sent := sent + [ListNoElement];
        return 1, sent;
      }
      var i := 0;
      while i < |order|
        invariant 0 <= i <= |order|
        invariant sent == [ListTitle] + Elements(order[..i], now)
      {
        sent := sent + [ListElement(order[i].worldName, TimeLeft(order[i], now), order[i].interval)];
        i := i + 1;
        assert Elements(order[..i], now) == Elements(order[..i - 1], now) + [ListElement(order[i - 1].worldName, TimeLeft(order[i - 1], now), order[i - 1].interval)];
      }
      assert order[..|order|] == order;
      code := 1;
    }

    /** usages: the title and one line per usage. */
    method Usages(usages: seq<string>) returns (sent: seq<Message>)
      ensures sent == UsageMessages(usages)
    {
      sent := [UsageTitle];
      for i := 0 to |usages|
        invariant sent == UsageMessages(usages[..i])
      {
        sent := sent + [UsagesCommand(usages[i])];
        assert UsageMessages(usages[..i + 1]) == UsageMessages(usages[..i]) + [UsagesCommand(usages[i])];
      }
      assert usages[..|usages|] == usages;
    }

    /** The handler a parsed node runs, with the value it returns. */
    method Run(inv: Invocation, subject: Subject, worlds: set<string>, now: int, saveFails: bool,
               order: seq<ScheduledReset>, usages: seq<string>)
      returns (code: int, sent: seq<Message>, written: Option<WorldsDocument>)
      modifies handler, config
      requires config.Typed() && Enumerates(order, handler.scheduledResets)
      ensures var o := RunOutcome(inv, old(handler.scheduledResets), subject, worlds, now, saveFails,
                                  ConfiguredInterval(old(config.unwind), old(config.rootRaw)), order, usages);
              handler.scheduledResets == o.resets && sent == o.sent && written.Some? == o.saved
      ensures code == 0 <==> (inv == ScheduleDefault || inv == UnscheduleCurrent) && subject.world.None?
      ensures code == 0 || code == 1
      ensures written.Some? ==> written.value.JsonArray? && Enumerates(written.value.resets, handler.scheduledResets)
      ensures handler.broadcastMoments == old(handler.broadcastMoments) && handler.isShuttingDown == old(handler.isShuttingDown)
      ensures config.Typed() && config.rootRaw == old(config.rootRaw)
      ensures (inv == ScheduleDefault && subject.world.Some?) || inv.ScheduleWorld? ==>
                config.unwind == YamlConfigAdapters.Memo(old(config.unwind), config.rootRaw, ConfigKeys.DEFAULT_RESET_INTERVAL).1
      ensures !((inv == ScheduleDefault && subject.world.Some?) || inv.ScheduleWorld?) ==> config.unwind == old(config.unwind)
    {
      ghost var configured := ConfiguredInterval(config.unwind, config.rootRaw);
      code := 1;
      written := None;
      match inv
      case ScheduleDefault =>
        if subject.world.Some? {
          var interval := DefaultInterval();
          sent, written := Schedule(subject.world.value, interval, now, worlds, saveFails);
        } else {
          sent := [ConsoleIncompleteCommand(PROVIDE_A_WORLD)];
          code := 0;
        }
      case ScheduleWorld(w) =>
        var interval := DefaultInterval();
        sent, written := Schedule(w, interval, now, worlds, saveFails);
      case ScheduleWorldWithInterval(w, interval) =>
        sent, written := Schedule(w, interval, now, worlds, saveFails);
      case UnscheduleCurrent =>
        if subject.world.Some? {
          sent, written := Unschedule(subject.world.value, worlds, saveFails);
        } else {
          sent := [ConsoleIncompleteCommand(PROVIDE_A_WORLD)];
          code := 0;
        }
      case UnscheduleWorld(w) =>
        sent, written := Unschedule(w, worlds, saveFails);
      case List =>
        code, sent := List(now, order);
      case Help =>
        var lines := Usages(usages);
        sent := [PluginInfo] + lines;
    }

    /** The body execute schedules: the checks on the parse results, then the handler. */
    method Execute(results: ParseResults, subject: Subject, worlds: set<string>, now: int, saveFails: bool,
                   order: seq<ScheduledReset>, usages: seq<string>)
      returns (sent: seq<Message>, written: Option<WorldsDocument>)
      modifies handler, config
      requires config.Typed() && Enumerates(order, handler.scheduledResets)
      ensures var o := ExecuteOutcome(results, old(handler.scheduledResets), subject, worlds, now, saveFails,
                                      ConfiguredInterval(old(config.unwind), old(config.rootRaw)), order, usages);
              handler.scheduledResets == o.resets && sent == o.sent && written.Some? == o.saved
      ensures written.Some? ==> written.value.JsonArray? && Enumerates(written.value.resets, handler.scheduledResets)
      ensures handler.broadcastMoments == old(handler.broadcastMoments) && handler.isShuttingDown == old(handler.isShuttingDown)
      ensures config.Typed() && config.rootRaw == old(config.rootRaw)
      ensures ReadsDefault(results, subject) ==>
                config.unwind == YamlConfigAdapters.Memo(old(config.unwind), config.rootRaw, ConfigKeys.DEFAULT_RESET_INTERVAL).1
      ensures !ReadsDefault(results, subject) ==> config.unwind == old(config.unwind)
    {
      written := None;
      if results.nodes == 0 {
        return [NoPermission], None;
      }
      if results.exceptions != [] {
        sent := [];
        for i := 0 to |results.exceptions|
          invariant sent == ErrorMessages(results.exceptions[..i])
        {
          sent := sent + [CommandError(results.exceptions[i])];
        }
        assert results.exceptions[..|results.exceptions|] == results.exceptions;
        return;
      }
      match results.command
      case None =>
        sent := Usages(usages);
      case Some(inv) =>
        var code;
        code, sent, written := Run(inv, subject, worlds, now, saveFails, order, usages);
    }
  }
}
