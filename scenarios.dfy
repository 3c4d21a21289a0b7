/** Whole sessions of the state machine: a new player's first visit, and
    concrete runs from a first start of the mod. */
module Scenarios {
  import opened JavaArith
  import opened Persistence
  import opened Detection

  /** A player never seen before who joins and leaves within the time limit
      is banned exactly once and remembered as banned. */
  lemma NewPlayerLeavingEarlyIsBanned(s: State, id: PlayerId, joinedAt: Long, leftAt: Long)
    requires s.pluginEnabled && MemoryOf(s.players, id) == Unknown && id !in s.joinTimes
    requires 0 <= joinedAt <= leftAt && (leftAt - joinedAt) / 1000 < s.timeLimit
    ensures var r := Run(s, [Joined(id, joinedAt), Left(id, leftAt)]);
            r.banned == [id] && MemoryOf(r.state.players, id) == Banned
            && r.state.joinTimes == s.joinTimes[id := joinedAt]
  {
    var s1 := Join(s, id, joinedAt);
    assert s1.joinTimes == s.joinTimes[id := joinedAt];
    assert ElapsedSeconds(joinedAt, leftAt) == (leftAt - joinedAt) / 1000;
    var o := Disconnect(s1, id, leftAt);
    assert o.action == Ban;
    assert [Left(id, leftAt)][1..] == [];
    assert Run(s1, [Left(id, leftAt)]) == Trace(o.state, [id]);
    assert [Joined(id, joinedAt), Left(id, leftAt)][1..] == [Left(id, leftAt)];
  }

  /** A player never seen before who joins and stays at least the time limit
      is remembered as cleared, untracked, and not banned. */
  lemma NewPlayerStayingIsCleared(s: State, id: PlayerId, joinedAt: Long, leftAt: Long)
    requires s.pluginEnabled && MemoryOf(s.players, id) == Unknown && id !in s.joinTimes
    requires 0 <= joinedAt <= leftAt && (leftAt - joinedAt) / 1000 >= s.timeLimit
    ensures var r := Run(s, [Joined(id, joinedAt), Left(id, leftAt)]);
            r.banned == [] && MemoryOf(r.state.players, id) == Cleared
            && r.state.joinTimes == s.joinTimes
  {
    var s1 := Join(s, id, joinedAt);
    assert s1.joinTimes == s.joinTimes[id := joinedAt];
    assert s1.joinTimes - {id} == s.joinTimes;
    assert ElapsedSeconds(joinedAt, leftAt) == (leftAt - joinedAt) / 1000;
    var o := Disconnect(s1, id, leftAt);
    assert o.action == NoAction;
    assert [Left(id, leftAt)][1..] == [];
    assert Run(s1, [Left(id, leftAt)]) == Trace(o.state, []);
    assert [Joined(id, joinedAt), Left(id, leftAt)][1..] == [Left(id, leftAt)];
  }

  /** From a first start with the default limit of 20 seconds: A joins at
      0 s and leaves at 5 s and is banned; B joins at 0 s and leaves at 25 s
      and is cleared; B then joins at 100 s and leaves at 101 s, and nothing
      happens. Times are in milliseconds. */
  lemma FirstStartSession()
    ensures var s0 := Startup(Missing, Missing);
            var a := Disconnect(Join(s0, "A", 0), "A", 5000);
            var b := Disconnect(Join(a.state, "B", 0), "B", 25000);
            var c := Disconnect(Join(b.state, "B", 100000), "B", 101000);
            && a.action == Ban && a.state.players == map["A" := false]
            && b.action == NoAction && b.state.players == map["A" := false, "B" := true]
            && c.action == NoAction && c.state == b.state
  {
  }

  /** Being banned is not final: the ban keeps A's join time, a later join
      does not replace it, and a disconnect measured from the old join time
      clears A. */
  lemma BannedPlayerCanBeCleared()
    ensures var s0 := Startup(Missing, Missing);
            var a := Disconnect(Join(s0, "A", 0), "A", 5000);
            var rejoined := Join(a.state, "A", 100000);
            var b := Disconnect(rejoined, "A", 101000);
            && MemoryOf(a.state.players, "A") == Banned
            && rejoined.joinTimes["A"] == 0
            && b.action == NoAction && MemoryOf(b.state.players, "A") == Cleared
  {
  }
}
