/** The BotBlocker mod object: its fields, the JOIN and DISCONNECT handler
    bodies and the three command bodies, each updating the fields in place.
    Every method is proved to take the snapshot of the fields to the state
    the matching function in module Detection gives, and to keep Inv. */
module Plugin {
  import opened JavaArith
  import opened Persistence
  import opened Detection

  class BotBlocker {
    var pluginEnabled: bool
    var timeLimit: Int                        // seconds
    var joinTimes: map<PlayerId, Long>        // milliseconds
    var config: map<string, Value>
    var players: map<PlayerId, bool>
    /** What mods/BotBlocker/config.yml and mods/BotBlocker/players.yml hold. */
    var configFile: Document<map<string, Value>>
    var playersFile: Document<map<PlayerId, bool>>

    ghost function Snapshot(): State
      reads this
    {
      State(pluginEnabled, timeLimit, joinTimes, players, config, playersFile, configFile)
    }

    ghost predicate Valid()
      reads this
    {
      Inv(Snapshot())
    }

    /** `onInitialize`, given what the two files hold at startup. */
    constructor (storedConfig: Document<map<string, Value>>, storedPlayers: Document<map<PlayerId, bool>>)
      ensures Valid()
      ensures Snapshot() == Startup(storedConfig, storedPlayers)
    {
      pluginEnabled := true;
      var c := LoadConfig(storedConfig);
      config, configFile := c.data, c.file;
      var p := LoadPlayers(storedPlayers);
      players, playersFile := p.data, p.file;
      timeLimit := DEFAULT_TIME_LIMIT;
      joinTimes := map[];
    }

    method SavePlayers()
      modifies this`playersFile
      ensures playersFile == Saved(players)
    {
      playersFile := Saved(players);
    }

    method SaveConfig()
      modifies this`configFile
      ensures configFile == Saved(config)
    {
      configFile := Saved(config);
    }

    /** The JOIN handler, with the clock reading passed in as `now`. */
    method OnJoin(id: PlayerId, now: Long)
      requires Valid()
      modifies this
      ensures Valid()
      ensures Snapshot() == Join(old(Snapshot()), id, now)
    {
      if !pluginEnabled {
        return;
      }
      if IsPlayerExempt(players, id) {
        return;
      }
      if id !in joinTimes {
        joinTimes := joinTimes[id := now];
      }
    }

    /** The DISCONNECT handler; `Ban` asks the host to add the player to the
        ban list and close the connection. */
    method OnDisconnect(id: PlayerId, now: Long) returns (action: Action)
      requires Valid()
      modifies this
      ensures Valid()
      ensures Snapshot() == Disconnect(old(Snapshot()), id, now).state
      ensures action == Disconnect(old(Snapshot()), id, now).action
    {
      action := NoAction;
      if !pluginEnabled {
        return;
      }
      if id in joinTimes {
        var joinTime := joinTimes[id];
        var timeConnected := LongDivThousand(LongSub(now, joinTime));
        if timeConnected < timeLimit {
          players := players[id := false];
          action := Ban;
        } else {
          players := players[id := true];
          joinTimes := joinTimes - {id};
        }
        SavePlayers();
      }
    }

    /** The `enable` command. */
    method Enable()
      requires Valid()
      modifies this
      ensures Valid()
      ensures Snapshot() == SetEnabled(old(Snapshot()), true)
    {
      pluginEnabled := true;
      config := config[ENABLED_KEY := BoolValue(true)];
      SaveConfig();
    }

    /** The `disable` command. */
    method Disable()
      requires Valid()
      modifies this
      ensures Valid()
      ensures Snapshot() == SetEnabled(old(Snapshot()), false)
    {
      pluginEnabled := false;
      config := config[ENABLED_KEY := BoolValue(false)];
      SaveConfig();
    }

    /** The `setTimeLimit <seconds>` command. */
    method SetTimeLimit(seconds: Int)
      requires Valid()
      modifies this
      ensures Valid()
      ensures Snapshot() == Detection.SetTimeLimit(old(Snapshot()), seconds)
    {
      timeLimit := seconds;
      config := config[TIME_LIMIT_KEY := IntValue(seconds)];
      SaveConfig();
    }
  }
}
