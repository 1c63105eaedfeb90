/** The state every module of the game shares (game/globals.js): the current game state and the
    two subscriptions, "game over" and "game won". The module-level variables become the fields
    of one `GlobalState` object that the player and the enemy formation are handed. */
module Globals {

  import opened Wrappers

  /** The four game states. `Code` gives the number each one stands for. */
  datatype GameState = Ok | GameOver | PlayerDestroyed | PlayerWin

  /** The frozen enum's numeric values. */
  function Code(s: GameState): (c: nat)
    ensures c < 4
    ensures c == 0 <==> s == Ok
  {
    match s
    case Ok => 0
    case GameOver => 1
    case PlayerDestroyed => 2
    case PlayerWin => 3
  }

  /** The state a number stands for, if any. */
  function FromCode(c: int): (s: Option<GameState>)
    ensures s.Some? <==> 0 <= c < 4
  {
    if c == 0 then Some(Ok)
    else if c == 1 then Some(GameOver)
    else if c == 2 then Some(PlayerDestroyed)
    else if c == 3 then Some(PlayerWin)
    else None
  }

  /** The four values are distinct, and each number in 0..3 stands for exactly one state. */
  lemma CodesRoundTrip(s: GameState, c: int)
    ensures FromCode(Code(s)) == Some(s)
    ensures 0 <= c < 4 ==> Code(FromCode(c).value) == c
    ensures forall t: GameState :: Code(t) == Code(s) ==> t == s
  {
  }

  /** A function subscribed to one of the events, told apart by an identifier (the model does not
      call it; the event is reported to the caller instead). */
  datatype Subscription = Subscription(id: nat)

  class GlobalState {
    var curGameState: GameState
    var onGameOver: Option<Subscription>
    var onGameWin: Option<Subscription>

    /** Module initialisation: the game starts in `Ok` with nothing subscribed. */
    constructor ()
      ensures curGameState == Ok && onGameOver == None && onGameWin == None
    {
      curGameState := Ok;
      onGameOver := None;
      onGameWin := None;
    }

    /** `setCurGameState`: the state becomes `next`; the subscriptions are untouched. */
    method SetCurGameState(next: GameState)
      modifies this`curGameState
      ensures curGameState == next
    {
      curGameState := next;
    }

    /** `setOnGameOver`: replaces only the game-over subscription. */
    method SetOnGameOver(f: Subscription)
      modifies this`onGameOver
      ensures onGameOver == Some(f)
    {
      onGameOver := Some(f);
    }

    /** `setOnGameWin`: replaces only the game-won subscription. */
    method SetOnGameWin(f: Subscription)
      modifies this`onGameWin
      ensures onGameWin == Some(f)
    {
      onGameWin := Some(f);
    }
  }

}
