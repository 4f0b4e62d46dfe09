/** The application states kept by GameManager (GameManager.cs). */
module GameStates {
  datatype GameState = Default | MainMenu | Preparing | Playing | Paused | Gameover
}
