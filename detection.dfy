/** The bot-detection state machine of BotBlocker as pure functions over a
    snapshot of the plugin's fields. A player who disconnects within
    `timeLimit` seconds of a tracked join is banned and remembered as
    banned; one who stays longer is remembered as cleared and never tracked
    again. The class in botblocker.dfy is proved to follow these functions. */
module Detection {
  import opened JavaArith
  import opened Persistence

  /** The text form of a player's UUID. `UUID.toString` is injective, so the
      same key serves the join tracker (keyed by UUID) and the player memory
      (keyed by its string). */
  type PlayerId = string

  /** What the player memory says about one player. */
  datatype Memory = Unknown | Cleared | Banned

  function MemoryOf(players: map<PlayerId, bool>, id: PlayerId): Memory
  {
    if id !in players then Unknown else if players[id] then Cleared else Banned
  }

  /** `isPlayerExempt`: only a player remembered as cleared is exempt; a
      player this plugin banned is not. */
  predicate IsPlayerExempt(players: map<PlayerId, bool>, id: PlayerId)
    ensures IsPlayerExempt(players, id) <==> MemoryOf(players, id) == Cleared
  {
    id in players && players[id]
  }

  /** The fields of one BotBlocker instance, with the contents of its two files. */
  datatype State = State(
    pluginEnabled: bool,
    timeLimit: Int,                        // seconds
    joinTimes: map<PlayerId, Long>,        // join timestamps, milliseconds
    players: map<PlayerId, bool>,          // true: cleared; false: banned by this plugin
    config: map<string, Value>,
    playersFile: Document<map<PlayerId, bool>>,
    configFile: Document<map<string, Value>>)

  /** What the host is asked to do after a disconnect. */
  datatype Action = Ban | NoAction

  datatype Outcome = Outcome(state: State, action: Action)

  /** A cleared player is never tracked. */
  ghost predicate ClearedUntracked(s: State)
  {
    forall id :: id in s.joinTimes ==> !IsPlayerExempt(s.players, id)
  }

  /** The player memory in the fields is the one a restart would read back,
      and so is the config, except during a first run before any command has
      saved it, while the config file is still the empty one just created. */
  ghost predicate Persisted(s: State)
  {
    && LoadPlayers(s.playersFile).data == s.players
    && (s.configFile == Saved(s.config) || (s.configFile == Blank && s.config == map[]))
  }

  ghost predicate Inv(s: State)
  {
    ClearedUntracked(s) && Persisted(s)
  }

  /** `onInitialize`: load both files, start enabled with a 20-second limit
      whatever the stored config says, with nobody tracked. */
  function Startup(configFile: Document<map<string, Value>>, playersFile: Document<map<PlayerId, bool>>): (s: State)
    ensures s.pluginEnabled && s.timeLimit == DEFAULT_TIME_LIMIT && s.joinTimes == map[]
    ensures s.players == (if playersFile.Saved? then playersFile.data else map[])
    ensures s.config == LoadConfig(configFile).data && s.configFile == LoadConfig(configFile).file
    ensures s.playersFile == (if playersFile == Missing then Blank else playersFile)
    ensures Inv(s)
  {
    var c := LoadConfig(configFile);
    var p := LoadPlayers(playersFile);
    State(true, DEFAULT_TIME_LIMIT, map[], p.data, c.data, p.file, c.file)
  }

  /** The JOIN handler: start timing a player who is not exempt and not
      already timed, while the plugin is enabled. */
  function Join(s: State, id: PlayerId, now: Long): (t: State)
    ensures t == s.(joinTimes := t.joinTimes)
    ensures forall p :: p in s.joinTimes ==> p in t.joinTimes && t.joinTimes[p] == s.joinTimes[p]
    ensures forall p :: p in t.joinTimes && p !in s.joinTimes ==> p == id && t.joinTimes[p] == now
    ensures id in t.joinTimes <==> id in s.joinTimes || (s.pluginEnabled && !IsPlayerExempt(s.players, id))
    ensures !s.pluginEnabled || IsPlayerExempt(s.players, id) ==> t == s
    ensures Inv(s) ==> Inv(t)
  {
    if !s.pluginEnabled then s
    else if IsPlayerExempt(s.players, id) then s
    else if id !in s.joinTimes then s.(joinTimes := s.joinTimes[id := now])
    else s
  }

  /** Whole seconds between a join at `joinTime` and `now`, computed as the
      handler does: a long subtraction followed by a long division. */
  function ElapsedSeconds(joinTime: Long, now: Long): (r: Long)
    ensures 0 <= now - joinTime <= LONG_MAX ==> 0 <= r && 1000 * r <= now - joinTime < 1000 * r + 1000
    ensures LONG_MIN <= now - joinTime < 0 ==> r <= 0 && 1000 * r - 1000 < now - joinTime <= 1000 * r
  {
    LongDivThousand(LongSub(now, joinTime))
  }

  /** A disconnect is evaluated only while enabled and for a tracked player. */
  predicate Evaluated(s: State, id: PlayerId)
  {
    s.pluginEnabled && id in s.joinTimes
  }

  /** The DISCONNECT handler: a tracked player who stayed less than the time
      limit is banned and remembered as banned (still tracked); one who stayed
      at least that long is remembered as cleared and untracked. Either way
      the player memory is saved. */
  function Disconnect(s: State, id: PlayerId, now: Long): (o: Outcome)
    ensures o.action == Ban <==> Evaluated(s, id) && ElapsedSeconds(s.joinTimes[id], now) < s.timeLimit
    ensures !Evaluated(s, id) ==> o.state == s
    ensures Evaluated(s, id) ==>
              && MemoryOf(o.state.players, id) == (if o.action == Ban then Banned else Cleared)
              && (forall p :: p != id ==> MemoryOf(o.state.players, p) == MemoryOf(s.players, p))
              && o.state.joinTimes == (if o.action == Ban then s.joinTimes else s.joinTimes - {id})
              && o.state.playersFile == Saved(o.state.players)
              && o.state == s.(players := o.state.players, joinTimes := o.state.joinTimes,
                               playersFile := o.state.playersFile)
    ensures Inv(s) ==> Inv(o.state)
  {
    if !s.pluginEnabled then Outcome(s, NoAction)
    else if id in s.joinTimes then
      var timeConnected := ElapsedSeconds(s.joinTimes[id], now);
      if timeConnected < s.timeLimit then
        var players := s.players[id := false];
        Outcome(s.(players := players, playersFile := Saved(players)), Ban)
      else
        var players := s.players[id := true];
        Outcome(s.(players := players, joinTimes := s.joinTimes - {id}, playersFile := Saved(players)), NoAction)
    else Outcome(s, NoAction)
  }

  /** The `enable` and `disable` commands: set the flag, record it in the
      config and save the config. */
  function SetEnabled(s: State, on: bool): (t: State)
    ensures t.pluginEnabled == on
    ensures t.config.Keys == s.config.Keys + {ENABLED_KEY} && t.config[ENABLED_KEY] == BoolValue(on)
    ensures forall k :: k in s.config && k != ENABLED_KEY ==> t.config[k] == s.config[k]
    ensures t.configFile == Saved(t.config)
    ensures t == s.(pluginEnabled := on, config := t.config, configFile := t.configFile)
    ensures Inv(s) ==> Inv(t)
  {
    var config := s.config[ENABLED_KEY := BoolValue(on)];
    s.(pluginEnabled := on, config := config, configFile := Saved(config))
  }

  /** The `setTimeLimit` command: any Java int is accepted, recorded in the
      config and saved. */
  function SetTimeLimit(s: State, seconds: Int): (t: State)
    ensures t.timeLimit == seconds
    ensures t.config.Keys == s.config.Keys + {TIME_LIMIT_KEY} && t.config[TIME_LIMIT_KEY] == IntValue(seconds)
    ensures forall k :: k in s.config && k != TIME_LIMIT_KEY ==> t.config[k] == s.config[k]
    ensures t.configFile == Saved(t.config)
    ensures t == s.(timeLimit := seconds, config := t.config, configFile := t.configFile)
    ensures Inv(s) ==> Inv(t)
  {
    var config := s.config[TIME_LIMIT_KEY := IntValue(seconds)];
    s.(timeLimit := seconds, config := config, configFile := Saved(config))
  }

  /** One input the plugin reacts to: a connection event or a command. */
  datatype Event =
    | Joined(id: PlayerId, now: Long)
    | Left(id: PlayerId, now: Long)
    | EnableCommand
    | DisableCommand
    | SetTimeLimitCommand(seconds: Int)

  function Step(s: State, e: Event): (o: Outcome)
    ensures o.action == Ban ==> e.Left? && e.id in s.joinTimes
    ensures Inv(s) ==> Inv(o.state)
  {
    match e
    case Joined(id, now) => Outcome(Join(s, id, now), NoAction)
    case Left(id, now) => Disconnect(s, id, now)
    case EnableCommand => Outcome(SetEnabled(s, true), NoAction)
    case DisableCommand => Outcome(SetEnabled(s, false), NoAction)
    case SetTimeLimitCommand(seconds) => Outcome(SetTimeLimit(s, seconds), NoAction)
  }

  /** The final state after a sequence of events, and the players banned
      along the way, in order. */
  datatype Trace = Trace(state: State, banned: seq<PlayerId>)

  function Run(s: State, events: seq<Event>): Trace
    decreases |events|
  {
    if events == [] then Trace(s, [])
    else
      var o := Step(s, events[0]);
      var rest := Run(o.state, events[1..]);
      Trace(rest.state, (if o.action == Ban && events[0].Left? then [events[0].id] else []) + rest.banned)
  }

  /** Every sequence of events keeps the invariant. */
  lemma {:induction false} RunPreservesInv(s: State, events: seq<Event>)
    requires Inv(s)
    ensures Inv(Run(s, events).state)
    decreases |events|
  {
    if events != [] {
      RunPreservesInv(Step(s, events[0]).state, events[1..]);
    }
  }

  /** One step never revokes an exemption and never bans an exempt player. */
  lemma StepKeepsExemption(s: State, e: Event, id: PlayerId)
    requires Inv(s) && IsPlayerExempt(s.players, id)
    ensures IsPlayerExempt(Step(s, e).state.players, id)
    ensures Step(s, e).action == Ban ==> e.id != id
  {
  }

  /** Exemption is permanent: once cleared, a player stays cleared and is
      never banned, whatever happens afterwards. */
  lemma {:induction false} ExemptionIsPermanent(s: State, events: seq<Event>, id: PlayerId)
    requires Inv(s) && IsPlayerExempt(s.players, id)
    ensures IsPlayerExempt(Run(s, events).state.players, id)
    ensures id !in Run(s, events).banned
    decreases |events|
  {
    if events != [] {
      StepKeepsExemption(s, events[0], id);
      ExemptionIsPermanent(Step(s, events[0]).state, events[1..], id);
    }
  }

  /** Only disconnects write the player memory: a run with no disconnect
      leaves the players file as it was. */
  lemma {:induction false} PlayersFileOnlyWrittenOnDisconnect(s: State, events: seq<Event>)
    requires forall i :: 0 <= i < |events| ==> !events[i].Left?
    ensures Run(s, events).state.playersFile == s.playersFile
    ensures Run(s, events).state.players == s.players
    decreases |events|
  {
    if events != [] {
      PlayersFileOnlyWrittenOnDisconnect(Step(s, events[0]).state, events[1..]);
    }
  }

  /** A time limit of zero or less never bans a player whose join time is a
      non-negative timestamp no later than the disconnect. */
  lemma NonPositiveLimitNeverBans(s: State, id: PlayerId, now: Long)
    requires s.timeLimit <= 0
    requires id in s.joinTimes ==> 0 <= s.joinTimes[id] <= now
    ensures Disconnect(s, id, now).action == NoAction
  {
  }

  /** Disabling the plugin between a join and the matching disconnect leaves
      the join entry in place, unevaluated, and bans nobody. */
  lemma DisableOrphansEntry(s: State, id: PlayerId, joinedAt: Long, leftAt: Long)
    requires s.pluginEnabled && !IsPlayerExempt(s.players, id) && id !in s.joinTimes
    ensures var r := Run(s, [Joined(id, joinedAt), DisableCommand, Left(id, leftAt)]);
            r.banned == [] && id in r.state.joinTimes && r.state.joinTimes[id] == joinedAt
            && r.state.players == s.players && r.state.playersFile == s.playersFile
  {
    var s1 := Join(s, id, joinedAt);
    var s2 := SetEnabled(s1, false);
    assert Run(s2, [Left(id, leftAt)]) == Trace(s2, []);
    assert [Joined(id, joinedAt), DisableCommand, Left(id, leftAt)][1..] == [DisableCommand, Left(id, leftAt)];
    assert [DisableCommand, Left(id, leftAt)][1..] == [Left(id, leftAt)];
  }

  /** A restart keeps the player memory, forgets every join time, and starts
      enabled with a 20-second limit: the stored config is read but not used. */
  lemma RestartKeepsMemoryOnly(s: State)
    requires Inv(s)
    ensures var r := Startup(s.configFile, s.playersFile);
            && r.players == s.players
            && r.joinTimes == map[]
            && r.pluginEnabled && r.timeLimit == DEFAULT_TIME_LIMIT
            && (r.config == s.config || (s.config == map[] && r.config == DefaultConfig()))
  {
  }

  /** A time limit set by command is stored in the config but does not
      survive a restart. */
  lemma TimeLimitForgottenOnRestart(s: State, seconds: Int)
    requires Inv(s)
    ensures var r := Startup(SetTimeLimit(s, seconds).configFile, SetTimeLimit(s, seconds).playersFile);
            r.config[TIME_LIMIT_KEY] == IntValue(seconds) && r.timeLimit == DEFAULT_TIME_LIMIT
  {
  }

  /** The result of a Java call that either returns or throws. */
  datatype Checked<T> = Returned(value: T) | Threw(exception: string)

  /** `isPlayerExempt` exactly as written, over a player memory that may be
      null: dereferencing null throws. */
  function IsPlayerExemptAsWritten(players: Option<map<PlayerId, bool>>, id: PlayerId): (r: Checked<bool>)
    ensures r.Threw? <==> players == None
    ensures players.Some? ==> r == Returned(IsPlayerExempt(players.value, id))
  {
    match players
    case None => Threw("NullPointerException")
    case Some(m) => Returned(id in m && m[id])
  }

  /** As written: a first start creates players.yml empty; if nobody's
      disconnect is evaluated before the next start, that start loads null
      and every later join event throws in `isPlayerExempt`. */
  lemma QuietFirstRunBreaksJoinAsWritten(configFile: Document<map<string, Value>>, events: seq<Event>, id: PlayerId)
    requires forall i :: 0 <= i < |events| ==> !events[i].Left?
    ensures var first := Run(Startup(configFile, Missing), events).state;
            IsPlayerExemptAsWritten(LoadPlayersAsWritten(first.playersFile).result, id).Threw?
  {
    PlayersFileOnlyWrittenOnDisconnect(Startup(configFile, Missing), events);
  }

  /** Corrected: with the null check, the same second start has an empty
      player memory and a join of a new player is tracked. */
  lemma QuietFirstRunThenJoinTracks(configFile: Document<map<string, Value>>, events: seq<Event>, id: PlayerId, now: Long)
    requires forall i :: 0 <= i < |events| ==> !events[i].Left?
    ensures var first := Run(Startup(configFile, Missing), events).state;
            var second := Startup(first.configFile, first.playersFile);
            second.players == map[] && Join(second, id, now).joinTimes == map[id := now]
  {
    PlayersFileOnlyWrittenOnDisconnect(Startup(configFile, Missing), events);
  }
}
