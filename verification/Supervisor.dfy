/** The supervisor of the runtime process: polls for the child's exit, tears the connection down, counts attempts and
    respawns. The two platforms differ in what they do while there is no child. */
module Supervisor {

  datatype Platform = Posix | Windows

  datatype Status = Ready | Restarting | Failed

  /** How a respawn ends: no process, a process without a Welcome (killed again), or a handshake. */
  datatype Spawn = NoProcess | NoWelcome | Welcome

  /** Where in a round a stop request is first seen, if at all. */
  datatype StopSeen = Never | AtTop | AfterExit | BeforeSpawn

  /** One round of the loop: whether the child is found to have exited, what a respawn would do, and stop. */
  datatype Round = Round(exited: bool, spawn: Spawn, stop: StopSeen)

  const MAX_RESTART_ATTEMPTS: nat := 5

  /** `failures` counts the respawns that have failed since the last good one and `spawns` all respawns; `running` is
      false once the loop has ended. */
  datatype Bridge = Bridge(
    status: Status, child: bool, client: bool, attempts: nat, failures: nat, stopping: bool, running: bool,
    spawns: nat)

  const STARTED: Bridge := Bridge(Ready, true, true, 0, 0, false, true, 0)

  // ---------------------------------------------------------------- one round

  /** Windows treats a missing handle as an exit; POSIX only waits for a process it has. */
  predicate Exited(p: Platform, b: Bridge, r: Round) {
    match p
    case Posix => b.child && r.exited
    case Windows => !b.child || r.exited
  }

  function Respawned(b: Bridge, spawn: Spawn): Bridge {
    var b := b.(spawns := b.spawns + 1);
    match spawn
    case NoProcess => b.(status := Failed, failures := b.failures + 1)
    case NoWelcome => b.(status := Failed, child := false, failures := b.failures + 1)
    case Welcome => b.(status := Ready, child := true, client := true, attempts := 0, failures := 0)
  }

  function Restarted(b: Bridge, r: Round): Bridge {
    var b := b.(client := false, attempts := b.attempts + 1);
    if b.attempts > MAX_RESTART_ATTEMPTS then b.(status := Failed, running := false)
    else
      var b := b.(status := Restarting);
      if r.stop.BeforeSpawn? then b.(stopping := true) else Respawned(b, r.spawn)
  }

  function OneRound(p: Platform, b: Bridge, r: Round): Bridge {
    if !b.running then b
    else if b.stopping || r.stop.AtTop? then b.(stopping := true, running := false)
    else if !Exited(p, b, r) then b
    else if r.stop.AfterExit? then b.(child := false, stopping := true, running := false)
    else Restarted(b.(child := false), r)
  }

  function Rounds(p: Platform, b: Bridge, rounds: seq<Round>): Bridge {
    if rounds == [] then b else OneRound(p, Rounds(p, b, rounds[..|rounds| - 1]), rounds[|rounds| - 1])
  }

  // ---------------------------------------------------------------- the loop

  class RuntimeBridge {
    const platform: Platform
    var status: Status
    var child: bool
    var client: bool
    var attempts: nat
    var stopping: bool
    var running: bool
    ghost var failures: nat
    ghost var spawns: nat

    ghost function State(): Bridge
      reads this
    {
      Bridge(status, child, client, attempts, failures, stopping, running, spawns)
    }

    constructor (platform: Platform)
      ensures State() == STARTED && this.platform == platform
    {
      this.platform := platform;
      status, child, client, attempts, stopping, running := Ready, true, true, 0, false, true;
      failures, spawns := 0, 0;
    }

    /** Spawn, then the handshake; a child without a Welcome is killed. */
    method SpawnAndHandshake(spawn: Spawn) returns (ok: bool)
      requires !child && !client
      modifies this`status, this`child, this`client, this`spawns
      ensures spawns == old(spawns) + 1
      ensures ok == spawn.Welcome? == child == client
      ensures status == if ok then Ready else Failed
    {
      spawns := spawns + 1;
      if spawn.NoProcess? {
        status := Failed;
        return false;
      }
      child := true;
      if spawn.NoWelcome? {
        status := Failed;
        child := false;
        return false;
      }
      client := true;
      status := Ready;
      return true;
    }

    method SupervisorLoop(rounds: seq<Round>)
      modifies this
      ensures State() == Rounds(platform, old(State()), rounds)
    {
      var i := 0;
      while i < |rounds| && running
        modifies this
        invariant 0 <= i <= |rounds|
        invariant State() == Rounds(platform, old(State()), rounds[..i])
      {
        var r := rounds[i];
        ghost var before := State();
        assert rounds[..i + 1][..i] == rounds[..i];
        if stopping || r.stop.AtTop? {
          stopping, running := true, false;
        } else if (platform.Posix? && child && r.exited) || (platform.Windows? && (!child || r.exited)) {
          child := false;
          if r.stop.AfterExit? {
            stopping, running := true, false;
          } else {
            client := false;
            attempts := attempts + 1;
            if attempts > MAX_RESTART_ATTEMPTS {
              status, running := Failed, false;
            } else {
              status := Restarting;
              if r.stop.BeforeSpawn? {
                stopping := true;
              } else {
                var ok := SpawnAndHandshake(r.spawn);
                if ok {
                  attempts := 0;
                  failures := 0;
                } else {
                  failures := failures + 1;
                }
              }
            }
          }
        }
        assert State() == OneRound(platform, before, r);
        i := i + 1;
      }
      EndedStays(platform, old(State()), rounds, i);
    }
  }

  /** A loop that has ended does nothing more. */
  lemma {:induction false} EndedStays(p: Platform, b: Bridge, rounds: seq<Round>, i: nat)
    requires i <= |rounds| && (i == |rounds| || !Rounds(p, b, rounds[..i]).running)
    ensures Rounds(p, b, rounds) == Rounds(p, b, rounds[..i])
    decreases |rounds|
  {
    if i == |rounds| {
      assert rounds[..i] == rounds;
    } else {
      assert rounds[..|rounds| - 1][..i] == rounds[..i];
      EndedStays(p, b, rounds[..|rounds| - 1], i);
    }
  }

  // ---------------------------------------------------------------- what every run keeps

  ghost predicate PosixInv(b: Bridge) {
    && (b.client <==> b.status.Ready?)
    && b.attempts <= 1 && b.failures <= 1
    && (b.child ==> b.attempts == 0 && b.failures == 0)
    && (b.failures == 1 ==> !b.child && b.status.Failed? && b.attempts == 1)
    && (b.running && !b.stopping && !b.child ==> b.failures == 1)
    && (!b.running ==> b.stopping)
  }

  ghost predicate GaveUp(b: Bridge) {
    !b.running && !b.stopping
  }

  ghost predicate WindowsInv(b: Bridge) {
    && (b.client <==> b.status.Ready?)
    && b.failures <= MAX_RESTART_ATTEMPTS
    && (b.running && !b.stopping ==> b.attempts == b.failures && (b.failures > 0 ==> !b.child && b.status.Failed?)
                                     && (b.child <==> b.failures == 0))
    && (GaveUp(b) ==> b.failures == MAX_RESTART_ATTEMPTS && b.attempts == MAX_RESTART_ATTEMPTS + 1
                      && b.status.Failed? && !b.child && !b.client)
  }

  lemma {:induction false} PosixKeeps(rounds: seq<Round>)
    ensures PosixInv(Rounds(Posix, STARTED, rounds))
  {
    if rounds != [] {
      PosixKeeps(rounds[..|rounds| - 1]);
    }
  }

  lemma {:induction false} WindowsKeeps(rounds: seq<Round>)
    ensures WindowsInv(Rounds(Windows, STARTED, rounds))
  {
    if rounds != [] {
      WindowsKeeps(rounds[..|rounds| - 1]);
    }
  }

  // ---------------------------------------------------------------- the bounds

  /** POSIX: one failed respawn is the most there is, the counter never passes 1, and the loop never gives up: it ends
      only on a stop. */
  lemma PosixBound(rounds: seq<Round>)
    ensures var b := Rounds(Posix, STARTED, rounds);
      b.failures <= 1 && b.attempts <= 1 && !GaveUp(b)
  {
    PosixKeeps(rounds);
  }

  /** And the failed respawn is final: nothing that happens afterwards starts another one. */
  lemma {:induction false} PosixFailureIsFinal(rounds: seq<Round>, more: seq<Round>)
    requires Rounds(Posix, STARTED, rounds).failures == 1
    ensures var b, later := Rounds(Posix, STARTED, rounds), Rounds(Posix, STARTED, rounds + more);
      later == b.(stopping := later.stopping, running := later.running) && later.status.Failed?
    decreases more
  {
    PosixKeeps(rounds);
    if more == [] {
      assert rounds + more == rounds;
    } else {
      assert (rounds + more)[..|rounds + more| - 1] == rounds + more[..|more| - 1];
      PosixFailureIsFinal(rounds, more[..|more| - 1]);
    }
  }

  /** Windows: at most five consecutive failures; the next round gives up exactly when there have been five (or stops,
      if it is told to), and a loop that gave up stays failed without a child or a client. */
  lemma WindowsBound(rounds: seq<Round>, r: Round)
    requires var b := Rounds(Windows, STARTED, rounds); b.running && !b.stopping
    ensures var b, next := Rounds(Windows, STARTED, rounds), Rounds(Windows, STARTED, rounds + [r]);
      && b.failures <= MAX_RESTART_ATTEMPTS
      && (GaveUp(next) <==> b.failures == MAX_RESTART_ATTEMPTS && !r.stop.AtTop? && !r.stop.AfterExit?)
  {
    WindowsKeeps(rounds);
    assert (rounds + [r])[..|rounds|] == rounds;
  }

  lemma WindowsFailedForever(rounds: seq<Round>, more: seq<Round>)
    requires GaveUp(Rounds(Windows, STARTED, rounds))
    ensures Rounds(Windows, STARTED, rounds + more) == Rounds(Windows, STARTED, rounds)
    ensures Rounds(Windows, STARTED, rounds + more).status.Failed?
  {
    WindowsKeeps(rounds);
    assert (rounds + more)[..|rounds|] == rounds;
    EndedStays(Windows, STARTED, rounds + more, |rounds|);
  }

  /** Between two good handshakes the failures count the failed rounds: n failing rounds after a crash leave n, up to
      the limit, each after a respawn of its own. */
  lemma {:induction false} WindowsCounts(rounds: seq<Round>)
    requires 0 < |rounds| <= MAX_RESTART_ATTEMPTS
    requires rounds[0].exited
    requires forall i | 0 <= i < |rounds| :: rounds[i].stop.Never? && !rounds[i].spawn.Welcome?
    ensures var n := |rounds|;
      Rounds(Windows, STARTED, rounds) == Bridge(Failed, false, false, n, n, false, true, n)
  {
    if |rounds| > 1 {
      WindowsCounts(rounds[..|rounds| - 1]);
    } else {
      assert rounds[..0] == [];
    }
  }

  /** And a handshake before the limit makes the bridge what it was after its start. */
  lemma WindowsRecovers(rounds: seq<Round>, r: Round)
    requires var b := Rounds(Windows, STARTED, rounds); b.running && !b.stopping && b.failures < 5
    requires r.exited && r.stop.Never? && r.spawn.Welcome?
    ensures Rounds(Windows, STARTED, rounds + [r]) ==
            STARTED.(spawns := Rounds(Windows, STARTED, rounds).spawns + 1)
  {
    WindowsKeeps(rounds);
    assert (rounds + [r])[..|rounds|] == rounds;
  }

  // ---------------------------------------------------------------- what a POSIX run comes to

  /** The rounds in which an exit shows. */
  function Exits(rounds: seq<Round>): nat {
    if rounds == [] then 0
    else Exits(rounds[..|rounds| - 1]) + if rounds[|rounds| - 1].exited then 1 else 0
  }

  /** While every crash is followed by a handshake, each exit is one respawn and leaves the bridge ready. */
  lemma {:induction false} PosixRecovers(rounds: seq<Round>)
    requires forall i | 0 <= i < |rounds| :: rounds[i].stop.Never? && (rounds[i].exited ==> rounds[i].spawn.Welcome?)
    ensures Rounds(Posix, STARTED, rounds) == Bridge(Ready, true, true, 0, 0, false, true, Exits(rounds))
  {
    if rounds != [] {
      PosixRecovers(rounds[..|rounds| - 1]);
    }
  }

  /** The first crash without a handshake leaves the bridge failed, whatever the later rounds bring. */
  lemma {:induction false} PosixFails(rounds: seq<Round>, k: nat)
    requires k < |rounds| && rounds[k].exited && !rounds[k].spawn.Welcome?
    requires forall i | 0 <= i < |rounds| :: rounds[i].stop.Never?
    requires forall i | 0 <= i < k :: rounds[i].exited ==> rounds[i].spawn.Welcome?
    ensures Rounds(Posix, STARTED, rounds) == Bridge(Failed, false, false, 1, 1, false, true, Exits(rounds[..k + 1]))
    decreases |rounds|
  {
    var before := rounds[..|rounds| - 1];
    if k < |rounds| - 1 {
      assert before[..k + 1] == rounds[..k + 1];
      PosixFails(before, k);
    } else {
      PosixRecovers(before);
      assert rounds[..k + 1] == rounds;
    }
  }

  /** So without a stop a POSIX bridge is failed exactly when some crash was not followed by a handshake. */
  lemma {:induction false} PosixFailsExactly(rounds: seq<Round>)
    requires forall i | 0 <= i < |rounds| :: rounds[i].stop.Never?
    ensures var b := Rounds(Posix, STARTED, rounds);
      && (b.failures == 1 <==> exists i :: 0 <= i < |rounds| && rounds[i].exited && !rounds[i].spawn.Welcome?)
      && (b.status.Failed? <==> b.failures == 1)
      && (b.status.Ready? <==> b.failures == 0)
      && b.running && !b.stopping
  {
    if i :| 0 <= i < |rounds| && rounds[i].exited && !rounds[i].spawn.Welcome? {
      var k := FirstFailure(rounds, i);
      PosixFails(rounds, k);
    } else {
      PosixRecovers(rounds);
    }
  }

  lemma {:induction false} FirstFailure(rounds: seq<Round>, i: nat) returns (k: nat)
    requires i < |rounds| && rounds[i].exited && !rounds[i].spawn.Welcome?
    ensures k <= i && rounds[k].exited && !rounds[k].spawn.Welcome?
    ensures forall j | 0 <= j < k :: rounds[j].exited ==> rounds[j].spawn.Welcome?
  {
    if j :| 0 <= j < i && rounds[j].exited && !rounds[j].spawn.Welcome? {
      k := FirstFailure(rounds, j);
    } else {
      k := i;
    }
  }

  // ---------------------------------------------------------------- when a child is replaced, and where a stop ends

  /** A respawn happens exactly in the rounds that find the child gone, or no child on Windows with attempts left; a
      round that does not changes nothing. */
  lemma SpawnsAtExits(p: Platform, rounds: seq<Round>, r: Round)
    requires var b := Rounds(p, STARTED, rounds); b.running && !b.stopping
    requires r.stop.Never?
    ensures var b, next := Rounds(p, STARTED, rounds), Rounds(p, STARTED, rounds + [r]);
      && (next.spawns == b.spawns + 1 <==>
            ((b.child && r.exited) || (p.Windows? && (!b.child || r.exited) && b.failures < 5)))
      && (next.spawns == b.spawns || next.spawns == b.spawns + 1)
      && (b.child && !r.exited ==> next == b)
      && (p.Posix? && !b.child ==> next == b)
  {
    if p.Posix? {
      PosixKeeps(rounds);
    } else {
      WindowsKeeps(rounds);
    }
    assert (rounds + [r])[..|rounds|] == rounds;
  }

  /** A stop seen at the top of a round ends the loop and touches nothing else; seen after an exit it drops the child
      only; seen before the respawn it ends the loop one round later, restarting and without a new child. */
  lemma StopEnds(p: Platform, rounds: seq<Round>, r: Round, last: Round)
    requires var b := Rounds(p, STARTED, rounds); b.running && !b.stopping && b.child
    ensures var b, next := Rounds(p, STARTED, rounds), Rounds(p, STARTED, rounds + [r]);
      && (r.stop.AtTop? ==> next == b.(stopping := true, running := false))
      && (r.stop.AfterExit? && r.exited ==> next == b.(child := false, stopping := true, running := false))
      && (r.stop.BeforeSpawn? && r.exited ==>
            && next == Bridge(Restarting, false, false, 1, 0, true, true, b.spawns)
            && Rounds(p, STARTED, rounds + [r, last]) == next.(running := false))
  {
    if p.Posix? {
      PosixKeeps(rounds);
    } else {
      WindowsKeeps(rounds);
    }
    assert (rounds + [r])[..|rounds|] == rounds;
    assert (rounds + [r, last])[..|rounds| + 1] == rounds + [r];
  }
}
