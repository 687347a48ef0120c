/**
 * The keyboard control of the game loop and the frame gate: pausing, resuming, quitting
 * and the debug toggle, as a pure transition on keys, and the frame-delay test over
 * integer nanoseconds.
 */
module Control {
  import opened Wrappers

  /** Running, paused inside the blocking pause loop, or exited. */
  datatype Mode = Running | Paused | Quit

  datatype State = State(mode: Mode, debug: bool)

  /**
   * One key read. A `key in ("q")` test is a substring test on the string `"q"`; for the
   * non-empty keys that reach it, that is the key `"q"` itself.
   */
  function OnKey(s: State, key: string): (t: State)
    ensures s.mode == Quit ==> t == s
    ensures key == "" ==> t == s
    ensures t.mode == Quit <==> s.mode == Quit || (s.mode == Paused && key == "q")
    ensures s.mode == Running ==> (t.mode == Paused <==> key == "q")
    ensures s.mode == Paused ==> (t.mode == Running <==> key == "r")
    ensures t.debug != s.debug <==> s.mode == Running && key == ":"
  {
    match s.mode
    case Running =>
      if key == "q" then s.(mode := Paused)
      else if key == ":" then s.(debug := !s.debug)
      else s
    case Paused =>
      if key == "r" then s.(mode := Running)
      else if key == "q" then s.(mode := Quit)
      else s
    case Quit => s
  }

  /** The keys a run reads, one after another. */
  function OnKeys(s: State, keys: seq<string>): State
    decreases |keys|
  {
    if keys == [] then s else OnKeys(OnKey(s, keys[0]), keys[1..])
  }

  /** Quitting is final: no key sequence leaves it. */
  lemma {:induction false} QuitIsFinal(s: State, keys: seq<string>)
    requires s.mode == Quit
    ensures OnKeys(s, keys) == s
    decreases |keys|
  {
    if keys != [] {
      QuitIsFinal(OnKey(s, keys[0]), keys[1..]);
    }
  }

  /** Pausing keeps the debug flag, and `q` then `r` brings the game back as it was. */
  lemma PauseResume(s: State)
    requires s.mode == Running
    ensures OnKeys(s, ["q", "r"]) == s
  {
    assert ["q", "r"][1..] == ["r"];
    assert ["r"][1..] == [];
  }

  /** Pressing `:` twice while running restores the debug flag. */
  lemma ToggleTwice(s: State)
    requires s.mode == Running
    ensures OnKeys(s, [":", ":"]) == s
  {
    assert [":", ":"][1..] == [":"];
    assert [":"][1..] == [];
  }

  /** The frame delay, `frame_delay = 0.01` seconds, in nanoseconds. */
  const FrameDelayNs: int := 10_000_000

  /**
   * `__ready_for_next_frame`: with no (or a zero) last frame time the frame is due;
   * otherwise it is due once more than the frame delay has passed. The source falls off
   * the end in the remaining case, returning `None`, which is false here.
   */
  function FrameReady(last: Option<int>, now: int): (r: bool)
    ensures last.None? ==> r
    ensures last.Some? && last.value != 0 ==> (r <==> now - last.value > FrameDelayNs)
  {
    if last.None? || last.value == 0 then true
    else now - last.value > FrameDelayNs
  }
}
