/**
 * The player inputs and the InputManager's key-repeat state machine: every
 * input has a held flag, a trigger that fires the input's action this frame,
 * and a countdown timer. A press fires at once; while the key stays held it
 * fires again after the input's delay and then every time its repeat timer
 * runs out.
 */
module Input {
  import opened Optional

  /** The six inputs of the game, plus NULL. */
  datatype InputType = LeftIn | RightIn | UpIn | DownIn | AIn | BIn | NullIn

  /** InputType.getIndex. */
  function InputIndex(t: InputType): (i: int)
    ensures 0 <= i <= 6
    ensures i == 6 <==> t == NullIn
  {
    match t
    case LeftIn => 0
    case RightIn => 1
    case UpIn => 2
    case DownIn => 3
    case AIn => 4
    case BIn => 5
    case NullIn => 6
  }

  /** InputType.get: the input with the given index; an unknown index throws in the source. */
  function InputOf(index: int): (r: Option<InputType>)
    ensures r.Some? <==> 0 <= index <= 6
    ensures r.Some? ==> InputIndex(r.value) == index
  {
    if index == 0 then Some(LeftIn)
    else if index == 1 then Some(RightIn)
    else if index == 2 then Some(UpIn)
    else if index == 3 then Some(DownIn)
    else if index == 4 then Some(AIn)
    else if index == 5 then Some(BIn)
    else if index == 6 then Some(NullIn)
    else None
  }

  /** Looking up an input's own index gives the input back. */
  lemma InputIndexRoundTrip(t: InputType)
    ensures InputOf(InputIndex(t)) == Some(t)
  {
  }

  /** Number of real inputs, each with its own slot in the manager's arrays. */
  const InputCount: int := 6

  /** The keys a, d, w, s, j and k drive LEFT, RIGHT, UP, DOWN, A and B. */
  const KeyboardInputs: seq<int> := [97, 100, 119, 115, 106, 107]

  /** The controller's GPIO pins for the same six inputs. */
  const InputPins: seq<int> := [26, 19, 16, 20, 21, 13]

  /** Frames from a press to its second trigger, per input, as set up for play. */
  const GameDelays: seq<int> := [13, 13, 18, 0, 18, 18]

  /** The repeat timer reloaded after each later trigger, per input, as set up for play. */
  const GameRepeats: seq<int> := [4, 4, 4, 2, 12, 12]

  /** One input's slot: held, trigger and timer. */
  datatype Repeat = Repeat(held: bool, trigger: bool, timer: int)

  /**
   * One frame of updateInputTriggers for one input. A slot that is not held
   * is left alone. A held slot fires when its timer equals the delay, or when
   * the timer has run down to zero or below, in which case the timer is
   * reloaded with the repeat value; otherwise it counts down without firing.
   */
  function Tick(r: Repeat, delay: int, repeat: int): (s: Repeat)
    ensures s.held == r.held
    ensures !r.held ==> s == r
    ensures r.held ==> (s.trigger <==> r.timer == delay || r.timer <= 0)
    ensures r.held && r.timer != delay && r.timer <= 0 ==> s.timer == repeat
    ensures r.held && (r.timer == delay || r.timer > 0) ==> s.timer == r.timer - 1
  {
    if !r.held then r
    else if r.timer == delay then Repeat(true, true, r.timer - 1)
    else if r.timer > 0 then Repeat(true, false, r.timer - 1)
    else Repeat(true, true, repeat)
  }

  /** n frames of Tick. */
  function TickN(r: Repeat, delay: int, repeat: int, n: nat): Repeat
  {
    if n == 0 then r else Tick(TickN(r, delay, repeat, n - 1), delay, repeat)
  }

  /** The slot right after its key is pressed. */
  function Pressed(delay: int): Repeat
  {
    Repeat(true, true, delay)
  }

  /** The slot right after its key is released. */
  const Released: Repeat := Repeat(false, false, 0)

  /** A released key stays quiet, frame after frame, until it is pressed again. */
  lemma {:induction false} ReleasedStaysQuiet(delay: int, repeat: int, n: nat)
    ensures TickN(Released, delay, repeat, n) == Released
  {
    if n > 0 {
      ReleasedStaysQuiet(delay, repeat, n - 1);
    }
  }

  /**
   * A held slot whose timer lies below the delay counts down without firing:
   * after n frames, n at most the timer, it has not fired and its timer is n
   * lower.
   */
  lemma {:induction false} QuietCountdown(r: Repeat, delay: int, repeat: int, n: nat)
    requires r.held && n <= r.timer < delay
    ensures TickN(r, delay, repeat, n) == (if n == 0 then r else Repeat(true, false, r.timer - n))
  {
    if n > 0 {
      QuietCountdown(r, delay, repeat, n - 1);
    }
  }

  /**
   * With a positive repeat value below a positive delay, a held key fires on
   * the first frame after the press, stays quiet until frame delay + 1, fires
   * then, and from there on fires once every repeat + 1 frames.
   */
  lemma HeldKeyRepeats(delay: int, repeat: int)
    requires 0 < repeat < delay
    ensures TickN(Pressed(delay), delay, repeat, 1).trigger
    ensures forall m: nat :: 2 <= m <= delay ==> !TickN(Pressed(delay), delay, repeat, m).trigger
    ensures TickN(Pressed(delay), delay, repeat, delay + 1) == Repeat(true, true, repeat)
    ensures forall m: nat :: 1 <= m <= repeat ==> !TickN(Repeat(true, true, repeat), delay, repeat, m).trigger
    ensures TickN(Repeat(true, true, repeat), delay, repeat, repeat + 1) == Repeat(true, true, repeat)
  {
    var first := TickN(Pressed(delay), delay, repeat, 1);
    assert TickN(Pressed(delay), delay, repeat, 0) == Pressed(delay);
    assert first == Repeat(true, true, delay - 1);
    forall m: nat | 2 <= m <= delay
      ensures !TickN(Pressed(delay), delay, repeat, m).trigger
    {
      Shift(Pressed(delay), delay, repeat, 1, m - 1);
      QuietCountdown(first, delay, repeat, m - 1);
    }
    Shift(Pressed(delay), delay, repeat, 1, delay - 1);
    QuietCountdown(first, delay, repeat, delay - 1);
    Shift(Pressed(delay), delay, repeat, delay, 1);
    var cycle := Repeat(true, true, repeat);
    forall m: nat | 1 <= m <= repeat
      ensures !TickN(cycle, delay, repeat, m).trigger
    {
      QuietCountdown(cycle, delay, repeat, m);
    }
    QuietCountdown(cycle, delay, repeat, repeat);
    Shift(cycle, delay, repeat, repeat, 1);
  }

  /** Running m frames and then n more is running m + n frames. */
  lemma {:induction false} Shift(r: Repeat, delay: int, repeat: int, m: nat, n: nat)
    ensures TickN(TickN(r, delay, repeat, m), delay, repeat, n) == TickN(r, delay, repeat, m + n)
  {
    if n > 0 {
      Shift(r, delay, repeat, m, n - 1);
    }
  }

  /**
   * DOWN during play has delay 0 and repeat 2: its timer passes through -1,
   * so a held DOWN fires on two frames in a row and then rests for two,
   * over and over.
   */
  lemma DownFiresInPairs()
    ensures var s0 := Pressed(0);
      TickN(s0, 0, 2, 1).trigger && TickN(s0, 0, 2, 2).trigger
      && !TickN(s0, 0, 2, 3).trigger && !TickN(s0, 0, 2, 4).trigger
      && TickN(s0, 0, 2, 4) == Repeat(true, false, 0)
      && TickN(Repeat(true, false, 0), 0, 2, 4) == Repeat(true, false, 0)
  {
    var s0 := Pressed(0);
    assert TickN(s0, 0, 2, 1) == Repeat(true, true, -1);
    assert TickN(s0, 0, 2, 2) == Repeat(true, true, 2);
    assert TickN(s0, 0, 2, 3) == Repeat(true, false, 1);
    assert TickN(s0, 0, 2, 4) == Repeat(true, false, 0);
    var z := Repeat(true, false, 0);
    assert TickN(z, 0, 2, 1) == Repeat(true, true, -1);
    assert TickN(z, 0, 2, 2) == Repeat(true, true, 2);
    assert TickN(z, 0, 2, 3) == Repeat(true, false, 1);
  }

  /**
   * The timers after the collisions of some LEFT moves (left set) and some
   * RIGHT moves (right set) have charged those two inputs.
   */
  function Charged(ts: seq<int>, left: bool, right: bool): seq<int>
    requires |ts| == InputCount
  {
    ts[0 := if left then 0 else ts[0]][1 := if right then 0 else ts[1]]
  }

  /** Charging nothing leaves the timers as they were. */
  lemma ChargedNothing(ts: seq<int>)
    requires |ts| == InputCount
    ensures Charged(ts, false, false) == ts
  {
  }

  /** Charging twice charges what either charge did. */
  lemma ChargedThen(ts: seq<int>, left1: bool, right1: bool, left2: bool, right2: bool)
    requires |ts| == InputCount
    ensures Charged(Charged(ts, left1, right1), left2, right2) == Charged(ts, left1 || left2, right1 || right2)
  {
  }

  /** A held input whose timer was charged fires on the very next frame, whatever it was waiting for. */
  lemma ChargedFires(r: Repeat, delay: int, repeat: int)
    requires r.held
    ensures Tick(r.(timer := 0), delay, repeat).trigger
  {
  }

  class InputManager {
    const inputs: array<bool>
    const triggers: array<bool>
    const timers: array<int>
    const delayTimer: array<int>
    const startInputTimer: array<int>

    /** Six slots per array, and no two arrays of the same type shared. */
    predicate Valid()
    {
      inputs.Length == InputCount && triggers.Length == InputCount && timers.Length == InputCount
      && delayTimer.Length == InputCount && startInputTimer.Length == InputCount
      && inputs != triggers
      && timers != delayTimer && timers != startInputTimer && delayTimer != startInputTimer
    }

    /** Slot i as a value. */
    function Slot(i: int): Repeat
      requires Valid() && 0 <= i < InputCount
      reads inputs, triggers, timers
    {
      Repeat(inputs[i], triggers[i], timers[i])
    }

    /** Nothing held, nothing triggered, every timer 0, and the delays set up for play. */
    constructor ()
      ensures Valid() && fresh(inputs) && fresh(triggers) && fresh(timers)
      ensures fresh(delayTimer) && fresh(startInputTimer)
      ensures forall i :: 0 <= i < InputCount ==> Slot(i) == Released
      ensures delayTimer[..] == GameDelays && startInputTimer[..] == GameRepeats
    {
      inputs := new bool[6](_ => false);
      triggers := new bool[6](_ => false);
      timers := new int[6](_ => 0);
      var d := new int[6];
      d[0], d[1], d[2], d[3], d[4], d[5] := 13, 13, 18, 0, 18, 18;
      var s := new int[6];
      s[0], s[1], s[2], s[3], s[4], s[5] := 4, 4, 4, 2, 12, 12;
      delayTimer := d;
      startInputTimer := s;
    }

    /** One frame of the key-repeat machine: every slot takes one Tick. */
    method UpdateInputTriggers()
      requires Valid()
      modifies triggers, timers
      ensures forall i :: 0 <= i < InputCount ==>
        Slot(i) == Tick(old(Slot(i)), delayTimer[i], startInputTimer[i])
    {
      var i := 0;
      while i < inputs.Length
        invariant 0 <= i <= InputCount
        invariant forall j :: 0 <= j < i ==>
          Slot(j) == Tick(old(Slot(j)), delayTimer[j], startInputTimer[j])
        invariant forall j :: i <= j < InputCount ==> Slot(j) == old(Slot(j))
      {
        if inputs[i] {
          if timers[i] == delayTimer[i] {
            triggers[i] := true;
            timers[i] := timers[i] - 1;
          } else if timers[i] > 0 {
            timers[i] := timers[i] - 1;
            triggers[i] := false;
          } else {
            timers[i] := startInputTimer[i];
            triggers[i] := true;
          }
        }
        i := i + 1;
      }
    }

    /**
     * GameManager.chargeInput(input): zeroes the input's repeat timer so
     * that, while still held, it fires again at once.
     */
    method ChargeInput(t: InputType)
      requires Valid() && t != NullIn
      modifies timers
      ensures timers[..] == old(timers[..])[InputIndex(t) := 0]
    {
      timers[InputIndex(t)] := 0;
    }

    /** Slot i let go: neither held nor triggered, its timer as it was. */
    method Release(i: int)
      requires Valid() && 0 <= i < InputCount
      modifies inputs, triggers
      ensures inputs[..] == old(inputs[..])[i := false] && triggers[..] == old(triggers[..])[i := false]
    {
      inputs[i] := false;
      triggers[i] := false;
    }

    /** DOWN repeats slowly in the menu (delay 18, repeat 4) and fast in play (delay 0, repeat 2). */
    method ChangeDelays(inMenu: bool)
      requires Valid()
      modifies delayTimer, startInputTimer
      ensures delayTimer[..] == old(delayTimer[..])[3 := if inMenu then 18 else 0]
      ensures startInputTimer[..] == old(startInputTimer[..])[3 := if inMenu then 4 else 2]
    {
      if inMenu {
        delayTimer[3] := 18;
        startInputTimer[3] := 4;
      } else {
        delayTimer[3] := 0;
        startInputTimer[3] := 2;
      }
    }

    /** Every slot whose code in codes equals code becomes Pressed or Released; the rest stay. */
    method SetMatching(codes: seq<int>, code: int, pressed: bool)
      requires Valid() && |codes| == InputCount
      modifies inputs, triggers, timers
      ensures forall i :: 0 <= i < InputCount ==>
        Slot(i) == if codes[i] != code then old(Slot(i))
                   else if pressed then Pressed(delayTimer[i]) else Released
    {
      var i := 0;
      while i < inputs.Length
        invariant 0 <= i <= InputCount
        invariant forall j :: 0 <= j < i ==>
          Slot(j) == if codes[j] != code then old(Slot(j))
                     else if pressed then Pressed(delayTimer[j]) else Released
        invariant forall j :: i <= j < InputCount ==> Slot(j) == old(Slot(j))
      {
        if code == codes[i] {
          if pressed {
            inputs[i] := true;
            triggers[i] := true;
            timers[i] := delayTimer[i];
          } else {
            inputs[i] := false;
            triggers[i] := false;
            timers[i] := 0;
          }
        }
        i := i + 1;
      }
    }

    /** keyPressed: the slot of the pressed key fires and starts its delay. */
    method SetPressInput(key: int)
      requires Valid()
      modifies inputs, triggers, timers
      ensures forall i :: 0 <= i < InputCount ==>
        Slot(i) == if KeyboardInputs[i] == key then Pressed(delayTimer[i]) else old(Slot(i))
    {
      SetMatching(KeyboardInputs, key, true);
    }

    /** keyReleased: the slot of the released key is cleared. */
    method SetReleaseInput(key: int)
      requires Valid()
      modifies inputs, triggers, timers
      ensures forall i :: 0 <= i < InputCount ==>
        Slot(i) == if KeyboardInputs[i] == key then Released else old(Slot(i))
    {
      SetMatching(KeyboardInputs, key, false);
    }

    /** A controller button event: the same as a key press or release for the button's pin. */
    method SetControllerInput(pin: int, pressed: bool)
      requires Valid()
      modifies inputs, triggers, timers
      ensures forall i :: 0 <= i < InputCount ==>
        Slot(i) == if InputPins[i] != pin then old(Slot(i))
                   else if pressed then Pressed(delayTimer[i]) else Released
    {
      SetMatching(InputPins, pin, pressed);
    }
  }
}
