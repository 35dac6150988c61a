/** The whiteboard constants of src/constants/whiteboard.ts. */
module Constants {

  /** WINDOW_DIMENSIONS: the virtual canvas ("window") size, in canvas units. */
  const WindowWidth: real := 3000.0
  const WindowHeight: real := 2000.0

  /** SCALES: the zoom range and the initial zoom. */
  const ScaleMin: real := 0.2
  const ScaleInitial: real := 0.6
  const ScaleMax: real := 4.0

  /** STICKY_NOTE: the default card size. */
  const StickyWidth: real := 280.0
  const StickyHeight: real := 320.0
}
