/**
 * The screen-mode machine of the main loop: which screen is shown, whether
 * the loop keeps running, the `game_over` flag, and when the world is reset.
 * The menus' own input handling is outside the model; what a menu answers
 * for an event is an input.
 */
module Modes {

  datatype Mode = Menu | Options | Credits | Controls | Playing | GameOver

  datatype Key = Escape | Return | OtherKey

  /** A pygame event, as far as the main loop tells them apart. */
  datatype Event = Quit | KeyDown(key: Key) | OtherEvent

  /** What the menu shown in the current mode answers for an event (`None` is `NoAction`). */
  datatype MenuAction = Start | OpenOptions | OpenCredits | OpenControls | Exit | Back | NoAction

  /** The main loop's `current_state`, `running` and `game_over`. */
  datatype Machine = Machine(mode: Mode, running: bool, gameOver: bool)

  /** The machine after an event, and whether the event called `reset_game`. */
  datatype Handled = Handled(machine: Machine, reset: bool)

  /** The machine `main` starts with: the main menu, running, no game over. */
  const START: Machine := Machine(Menu, true, false)

  /** `game_over` is set exactly while the game-over screen is shown. */
  predicate Consistent(m: Machine)
  {
    m.gameOver <==> m.mode == GameOver
  }

  /**
   * One event of the event loop.  A quit event stops the loop and is then
   * handled by the current screen like any other.  The main menu starts,
   * opens the options, credits or controls screen, or exits; the options and
   * credits screens go back on their menu's answer; the controls and
   * playing screens go back to the main menu on Escape; the game-over
   * screen resets the world and plays again on Return, or resets it and
   * goes to the main menu on Escape.
   */
  function HandleEvent(m: Machine, ev: Event, action: MenuAction): (r: Handled)
    ensures ev.Quit? || !m.running ==> !r.machine.running
    ensures r.machine.running ==> m.running
    ensures Consistent(m) ==> Consistent(r.machine)
    ensures r.reset <==> m.mode == GameOver && (ev == KeyDown(Return) || ev == KeyDown(Escape))
    ensures r.reset ==> r.machine.mode in {Playing, Menu} && !r.machine.gameOver
  {
    var running := m.running && !ev.Quit?;
    var escape := ev == KeyDown(Escape);
    match m.mode
    case Menu =>
      (match action
       case Start => Handled(m.(mode := Playing, running := running), false)
       case OpenOptions => Handled(m.(mode := Options, running := running), false)
       case OpenCredits => Handled(m.(mode := Credits, running := running), false)
       case OpenControls => Handled(m.(mode := Controls, running := running), false)
       case Exit => Handled(m.(running := false), false)
       case _ => Handled(m.(running := running), false))
    case Options =>
      Handled(if action == Back then m.(mode := Menu, running := running) else m.(running := running), false)
    case Credits =>
      Handled(if action == Back then m.(mode := Menu, running := running) else m.(running := running), false)
    case Controls =>
      Handled(if escape then m.(mode := Menu, running := running) else m.(running := running), false)
    case Playing =>
      Handled(if escape then m.(mode := Menu, running := running) else m.(running := running), false)
    case GameOver =>
      if ev == KeyDown(Return) then Handled(Machine(Playing, running, false), true)
      else if escape then Handled(Machine(Menu, running, false), true)
      else Handled(m.(running := running), false)
  }

  /**
   * The check at the start of a playing frame: a player with no health left
   * ends the game.  The second component says whether the world is updated
   * this frame.
   */
  function FrameCheck(m: Machine, playerHealth: int): (r: (Machine, bool))
    ensures Consistent(m) ==> Consistent(r.0)
    ensures Consistent(m) ==> (r.1 <==> m.mode == Playing && playerHealth > 0)
  {
    if m.mode == Playing && playerHealth <= 0 then (m.(mode := GameOver, gameOver := true), false)
    else (m, m.mode == Playing && !m.gameOver)
  }

  /** Escape leaves the controls, playing and game-over screens for the main menu. */
  lemma EscapeGoesToMenu(m: Machine, action: MenuAction)
    requires m.mode in {Controls, Playing, GameOver}
    ensures HandleEvent(m, KeyDown(Escape), action).machine.mode == Menu
  {
  }

  /**
   * Escape while playing pauses: the main menu's start answer resumes play
   * without resetting the world.
   */
  lemma PauseResumesWithoutReset(m: Machine, a1: MenuAction)
    requires m.mode == Playing && m.running && !m.gameOver
    ensures var h1 := HandleEvent(m, KeyDown(Escape), a1);
      var h2 := HandleEvent(h1.machine, OtherEvent, Start);
      !h1.reset && !h2.reset && h2.machine == m
  {
  }

  /** The event loop of one frame over `events`, each with what the current menu answered for it. */
  function HandleAll(m: Machine, events: seq<Event>, actions: seq<MenuAction>): (r: Handled)
    requires |actions| == |events|
    ensures Consistent(m) ==> Consistent(r.machine)
    ensures r.machine.running ==> m.running
    decreases |events|
  {
    if events == [] then Handled(m, false)
    else
      var h := HandleEvent(m, events[0], actions[0]);
      var rest := HandleAll(h.machine, events[1..], actions[1..]);
      Handled(rest.machine, h.reset || rest.reset)
  }

  /** The event loop over one more event: the loop over the events before it, then that event. */
  lemma {:induction false} HandleAllSnoc(m: Machine, events: seq<Event>, actions: seq<MenuAction>,
                                         ev: Event, action: MenuAction)
    requires |actions| == |events|
    ensures var h := HandleAll(m, events, actions);
      var last := HandleEvent(h.machine, ev, action);
      HandleAll(m, events + [ev], actions + [action]) == Handled(last.machine, h.reset || last.reset)
    decreases |events|
  {
    if events == [] {
      assert [ev][1..] == [] && [action][1..] == [];
    } else {
      assert (events + [ev])[1..] == events[1..] + [ev];
      assert (actions + [action])[1..] == actions[1..] + [action];
      HandleAllSnoc(HandleEvent(m, events[0], actions[0]).machine, events[1..], actions[1..], ev, action);
    }
  }

  /** A quit event anywhere in a frame's events ends the main loop. */
  lemma {:induction false} QuitStops(m: Machine, events: seq<Event>, actions: seq<MenuAction>)
    requires |actions| == |events| && Quit in events
    ensures !HandleAll(m, events, actions).machine.running
    decreases |events|
  {
    if events[0] != Quit {
      QuitStops(HandleEvent(m, events[0], actions[0]).machine, events[1..], actions[1..]);
    }
  }
}
