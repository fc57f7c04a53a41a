/** The match-phase state machine (Game/GameManager.cs): the `State` setter
    and its change notification, pausing, and the state writes made while
    scenes load, unload and a match ends. Fades, music and the countdown's
    waits are left to the engine; each wait's end is an explicit call. */
module GameManager {
  import opened Kinds
  import opened Events

  datatype Game = Game(
    state: GameState,
    timeScale: real,
    pauseShown: bool,   // the pause overlay is visible
    listening: bool)    // `gameStateChanged` has subscribers

  /** A scene transition the manager starts (`TransitionToScene` arguments). */
  datatype Transition = Transition(scene: string, fadeOut: bool, fadeIn: bool, loadingScreen: bool)

  datatype SceneLoad = SceneLoad(step: Step<Game>, transition: Transition)

  /** The `State` setter: the notification carries the state being left,
      because it is raised before the new value is stored. */
  function SetState(g: Game, s: GameState): (o: Step<Game>)
    ensures o.state.state == s
    ensures o.state.(state := g.state) == g
    ensures g.listening ==> o.events == [GameStateChanged(g.state, s)]
    ensures !g.listening ==> o.events == []
  {
    Step(g.(state := s), if g.listening then [GameStateChanged(g.state, s)] else [])
  }

  /** `TogglePauseState`. */
  function TogglePause(g: Game): (o: Step<Game>)
    ensures g.state == Paused ==>
              o.state == g.(state := Running, timeScale := 1.0, pauseShown := false)
    ensures g.state == Running ==>
              o.state == g.(state := Paused, timeScale := 0.0, pauseShown := true)
    ensures g.state != Paused && g.state != Running ==> o == Step(g, [])
    ensures g.listening && (g.state == Paused || g.state == Running) ==>
              o.events == [GameStateChanged(g.state, o.state.state)]
  {
    if g.state == Paused then
      SetState(g.(pauseShown := false, timeScale := 1.0), Running)
    else if g.state != Running then
      Step(g, [])
    else
      SetState(g.(pauseShown := true, timeScale := 0.0), Paused)
  }

  /** Pausing and resuming (or the reverse) lands in the starting phase. */
  lemma ToggleTwice(g: Game)
    requires g.state == Running || g.state == Paused
    ensures TogglePause(TogglePause(g).state).state.state == g.state
    ensures g.state == Running ==> TogglePause(TogglePause(g).state).state.timeScale == 1.0
  {
  }

  /** `LoadScene(name)` while `active` is the loaded scene: a paused game is
      first resumed and then put into Pregame; the transition from the boot
      scene to the title skips the fade-out and the loading screen. */
  function LoadScene(g: Game, name: string, active: string): (o: SceneLoad)
    ensures g.state == Paused ==> o.step.state.state == Pregame && o.step.state.timeScale == 1.0
    ensures g.state == Paused && g.listening ==>
              o.step.events == [GameStateChanged(Paused, Running), GameStateChanged(Running, Pregame)]
    ensures g.state != Paused ==> o.step == Step(g, [])
    ensures o.transition.scene == name && o.transition.fadeIn
    ensures o.transition.fadeOut <==> !(active == "Boot" && name == "Title")
    ensures o.transition.loadingScreen == o.transition.fadeOut
  {
    var resumed :=
      if g.state == Paused then
        var r := TogglePause(g);
        var p := SetState(r.state, Pregame);
        Step(p.state, r.events + p.events)
      else Step(g, []);
    var boot := active == "Boot" && name == "Title";
    SceneLoad(resumed, Transition(name, !boot, true, !boot))
  }

  /** `OnSceneLoad`: the title scene puts the game in Pregame and tells
      the subscribers which phase it left; any other scene changes nothing. */
  function OnSceneLoad(g: Game, name: string): (o: Step<Game>)
    ensures name == "Title" ==> o.state.state == Pregame
    ensures o.state.(state := g.state) == g
    ensures name == "Title" && g.listening ==> o.events == [GameStateChanged(g.state, Pregame)]
    ensures name != "Title" || !g.listening ==> o.events == []
    ensures name != "Title" ==> o.state == g
  {
    if name == "Title" then SetState(g, Pregame) else Step(g, [])
  }

  /** Loading the main scene starts the countdown routine. */
  predicate StartsCountdown(name: string) {
    name == "Main"
  }

  /** The end of the countdown's waits: the match starts. */
  function CountdownFinished(g: Game): (o: Step<Game>)
    ensures o.state.state == Running
    ensures o.state.(state := g.state) == g
    ensures g.listening ==> o.events == [GameStateChanged(g.state, Running)]
    ensures !g.listening ==> o.events == []
  {
    SetState(g, Running)
  }

  /** `EndGame(isWin)`: the part of `EndGameRoutine` that runs before its
      first wait, which happens within the call that started it. */
  function EndGame(g: Game): (o: Step<Game>)
    ensures o.state.state == Postgame && o.state.timeScale == 0.35
    ensures o.state.listening == g.listening
    ensures g.listening ==> o.events == [GameStateChanged(g.state, Postgame)]
  {
    SetState(g.(timeScale := 0.35), Postgame)
  }

  /** The end of the slow-motion wait: normal speed, then the result scene. */
  function EndGameResume(g: Game): Step<Game> {
    Step(g.(timeScale := 1.0), [])
  }

  /** The result scene the routine transitions to. */
  function ResultTransition(isWin: bool): Transition {
    Transition(if isWin then "WinScene" else "LoseScene", true, true, false)
  }

  /** The whole of `EndGameRoutine`: the match is over at normal speed after
      exactly one notification, and the result scene is the winner's, faded
      out and in with no loading screen. Nothing but phase and speed change. */
  lemma MatchEnd(g: Game, isWin: bool)
    ensures var e := EndGame(g);
            var r := EndGameResume(e.state);
            r.state.state == Postgame && r.state.timeScale == 1.0
            && r.state.(state := g.state, timeScale := g.timeScale) == g
            && |e.events + r.events| == (if g.listening then 1 else 0)
    ensures var t := ResultTransition(isWin);
            t.scene == (if isWin then "WinScene" else "LoseScene")
            && t.fadeOut && t.fadeIn && !t.loadingScreen
  {
  }

  /** A scene load never leaves the game paused, and a paused game is back
      at normal speed: the load resumes it before anything else. */
  lemma LoadNeverPaused(g: Game, name: string, active: string)
    ensures LoadScene(g, name, active).step.state.state != Paused
    ensures g.state == Paused ==> LoadScene(g, name, active).step.state.timeScale == 1.0
    ensures LoadScene(g, name, active).step.state.listening == g.listening
  {
  }

  /** Once the countdown ends the match can be paused, and pausing stops time. */
  lemma CountdownThenPause(g: Game)
    ensures var p := TogglePause(CountdownFinished(g).state).state;
            p.state == Paused && p.timeScale == 0.0 && p.pauseShown
  {
  }

  /** `OnSceneUnload`: leaving the main scene drops every subscriber. */
  function OnSceneUnload(g: Game, name: string): (h: Game)
    ensures name == "Main" ==> !h.listening
    ensures h.(listening := g.listening) == g
  {
    if name == "Main" then g.(listening := false) else g
  }

  /** Once the main scene has unloaded, state changes reach no one. */
  lemma SilentAfterUnload(g: Game, s: GameState)
    ensures SetState(OnSceneUnload(g, "Main"), s).events == []
  {
  }

  /** `Start`: the manager enters Default and loads the title scene. */
  function Start(g: Game, active: string): (o: SceneLoad)
    ensures o.step.state.state == Default
    ensures o.transition.scene == "Title"
  {
    var d := SetState(g, Default);
    var l := LoadScene(d.state, "Title", active);
    SceneLoad(Step(l.step.state, d.events + l.step.events), l.transition)
  }
}
