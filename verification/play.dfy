/**
 * The game loop of `play`: commands are processed one after another until a
 * command ends the game or, after any other command, the player holds
 * exactly the winning number of items. The parser's stream of commands is
 * a finite sequence here.
 */
module Play {
  import opened Items
  import opened Inventories
  import opened Rooms
  import opened Game

  /** `hasWon` compares the inventory size with this constant. */
  const WinningSize: nat := 14

  /** `hasWon`: the player has won when they hold exactly the winning number of items. */
  predicate HasWon(s: State)
  {
    |s.player| == WinningSize
  }

  /** Every command of the stream can be processed without the source failing. */
  predicate Playable(cmds: seq<Command>)
  {
    forall k :: 0 <= k < |cmds| ==> EatHasObject(cmds[k])
  }

  /** One pass of the loop body: the state after `cmd`, and whether the loop stops there. */
  function Turn(w: World, s: State, cmd: Command): (r: (State, bool))
    requires Valid(w, s) && EatHasObject(cmd)
    ensures Valid(w, r.0)
    ensures Terminates(cmd) ==> r.1 && r.0 == s
    ensures !Terminates(cmd) ==> (r.1 <==> |r.0.player| == WinningSize)
    ensures |s.player| - 1 <= |r.0.player| <= |s.player| + 1
  {
    var out := ProcessCommand(w, s, cmd);
    var finished := out.finished;
    (out.state, if !finished then HasWon(out.state) else finished)
  }

  /** The state after the first `n` commands, had none of them stopped the loop. */
  ghost function StateAfter(w: World, s: State, cmds: seq<Command>, n: nat): (r: State)
    requires Valid(w, s) && Playable(cmds) && n <= |cmds|
    ensures Valid(w, r)
    decreases n
  {
    if n == 0 then s else Turn(w, StateAfter(w, s, cmds, n - 1), cmds[n - 1]).0
  }

  /** The loop stops right after command `k`. */
  ghost predicate StopsAt(w: World, s: State, cmds: seq<Command>, k: nat)
    requires Valid(w, s) && Playable(cmds) && k < |cmds|
  {
    Turn(w, StateAfter(w, s, cmds, k), cmds[k]).1
  }

  /**
   * `play`: run commands until one stops the loop. `consumed` commands were
   * read; `ended` tells whether the last of them stopped the game, in which
   * case no earlier one did.
   */
  method Run(w: World, s: State, cmds: seq<Command>) returns (final: State, ended: bool, consumed: nat)
    requires Valid(w, s) && Playable(cmds)
    ensures consumed <= |cmds| && Valid(w, final)
    ensures final == StateAfter(w, s, cmds, consumed)
    ensures ended ==> 0 < consumed && StopsAt(w, s, cmds, consumed - 1)
    ensures forall k :: 0 <= k < consumed - 1 ==> !StopsAt(w, s, cmds, k)
    ensures !ended ==> consumed == |cmds| && forall k :: 0 <= k < |cmds| ==> !StopsAt(w, s, cmds, k)
    ensures ended && !Terminates(cmds[consumed - 1]) ==> |final.player| == WinningSize
    ensures |s.player| < WinningSize ==> |final.player| <= WinningSize
  {
    hide Turn;
    final, ended, consumed := s, false, 0;
    while !ended && consumed < |cmds|
      invariant consumed <= |cmds| && Valid(w, final)
      invariant final == StateAfter(w, s, cmds, consumed)
      invariant ended ==> 0 < consumed && StopsAt(w, s, cmds, consumed - 1)
      invariant forall k :: 0 <= k < consumed - 1 ==> !StopsAt(w, s, cmds, k)
      invariant !ended ==> forall k :: 0 <= k < consumed ==> !StopsAt(w, s, cmds, k)
      decreases |cmds| - consumed, if ended then 0 else 1
    {
      var turn := Turn(w, final, cmds[consumed]);
      final, ended := turn.0, turn.1;
      consumed := consumed + 1;
    }
    if |s.player| < WinningSize {
      RunStaysWithinWinningSize(w, s, cmds, consumed);
    }
  }

  /**
   * A player who starts short of the winning size never passes it: each
   * command changes the inventory by at most one item, and reaching the
   * winning size stops the loop.
   */
  lemma {:induction false} NeverOvershoots(w: World, s: State, cmds: seq<Command>, n: nat)
    requires Valid(w, s) && Playable(cmds) && n <= |cmds|
    requires |s.player| < WinningSize
    requires forall k :: 0 <= k < n ==> !StopsAt(w, s, cmds, k)
    ensures |StateAfter(w, s, cmds, n).player| < WinningSize
    decreases n
  {
    hide Turn;
    if n > 0 {
      NeverOvershoots(w, s, cmds, n - 1);
      assert !StopsAt(w, s, cmds, n - 1);
    }
  }

  /** Hence a run that started short of the winning size ends holding at most that many items. */
  lemma RunStaysWithinWinningSize(w: World, s: State, cmds: seq<Command>, consumed: nat)
    requires Valid(w, s) && Playable(cmds) && consumed <= |cmds|
    requires |s.player| < WinningSize
    requires forall k :: 0 <= k < consumed - 1 ==> !StopsAt(w, s, cmds, k)
    ensures |StateAfter(w, s, cmds, consumed).player| <= WinningSize
  {
    hide Turn;
    if consumed > 0 {
      NeverOvershoots(w, s, cmds, consumed - 1);
    }
  }
}
