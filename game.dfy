/**
 * GameManager and MenuManager: the player's session around the grid (name,
 * start level, score table, cheat names, the pause menu) and the routing of
 * one input either to the grid or to the menu.
 *
 * The two classes refer to each other (the menu edits the game's name and
 * start level and closes back into it), so they share one module; the menu
 * is handed the game it works on. Piece kinds a new grid draws at random
 * are parameters.
 */
module Game {
  import opened Pieces
  import opened Boards
  import opened Search
  import opened Input
  import opened Grid
  import opened Scores

  /** The frames of inactivity after which the AI takes over. */
  const InactiveFrames: int := 1200

  /** The frames between startGame and the first grid update. */
  const StartDelayFrames: int := 20

  /** The characters of the name editor. */
  const NameLength: int := 10

  /** MenuOptions: the four rows of the pause menu. */
  datatype MenuOption = NameOpt | LevelOpt | MusicOpt | SoundOpt

  /** MenuOptions.getIndex. */
  function OptionIndex(o: MenuOption): (i: int)
    ensures 0 <= i < 4
  {
    match o
    case NameOpt => 0
    case LevelOpt => 1
    case MusicOpt => 2
    case SoundOpt => 3
  }

  /** MenuOptions.getLength: the buttons of the row (eight name characters, two arrows otherwise). */
  function OptionLength(o: MenuOption): (n: int)
    ensures n >= 2
  {
    if o == NameOpt then 8 else 2
  }

  /** MenuOptions.get: the option with the given index. */
  function OptionAt(i: int): (o: MenuOption)
    requires 0 <= i < 4
    ensures OptionIndex(o) == i
  {
    if i == 0 then NameOpt else if i == 1 then LevelOpt else if i == 2 then MusicOpt else SoundOpt
  }

  /** What the menu shows and edits: the highlighted option and button, the name characters, the start level. */
  datatype MenuView = MenuView(option: MenuOption, x: int, chars: seq<char>, startLevel: int)

  /** The menu's own invariant: ten name characters and a highlighted button inside its row. */
  predicate MenuOk(m: MenuView)
  {
    |m.chars| == NameLength && 0 <= m.x < OptionLength(m.option)
  }

  /**
   * MenuManager.executeFunction on everything but the volume rows and B:
   * LEFT and RIGHT move along the row and, past its end, step the start
   * level (down while above 0, up while below 16); UP and DOWN change the
   * row (leaving the name row goes back to its first button); A steps the
   * highlighted name character, or steps the start level (down while above
   * 0 on the left arrow, up while below 15 on the right one).
   */
  function MenuStep(m: MenuView, t: InputType): (r: MenuView)
    requires MenuOk(m)
    ensures r.chars != m.chars ==> t == AIn && m.option == NameOpt
    ensures r.startLevel != m.startLevel ==> m.option == LevelOpt
  {
    match t
    case LeftIn =>
      if m.x > 0 then m.(x := m.x - 1)
      else if m.option == LevelOpt && m.startLevel > 0 then m.(startLevel := m.startLevel - 1)
      else m
    case RightIn =>
      if m.x < OptionLength(m.option) - 1 then m.(x := m.x + 1)
      else if m.option == LevelOpt && m.startLevel < MaxLevel then m.(startLevel := m.startLevel + 1)
      else m
    case UpIn =>
      if OptionIndex(m.option) > 0 then m.(option := OptionAt(OptionIndex(m.option) - 1)) else m
    case DownIn =>
      var m1 := if m.option == NameOpt then m.(x := 0) else m;
      if OptionIndex(m.option) < 3 then m1.(option := OptionAt(OptionIndex(m.option) + 1)) else m1
    case AIn =>
      if m.option == NameOpt then m.(chars := m.chars[m.x := NextNameChar(m.chars[m.x])])
      else if m.option == LevelOpt then
        if m.x == 0 then
          if m.startLevel > 0 then m.(startLevel := m.startLevel - 1) else m
        else if m.startLevel < MaxLevel - 1 then m.(startLevel := m.startLevel + 1)
        else m
      else m
    case BIn => m
    case NullIn => m
  }

  /**
   * The menu keeps its invariant, and the start level stays a level: it
   * moves by at most one, only on the level row, and never leaves 0..16.
   */
  lemma MenuStepKeeps(m: MenuView, t: InputType)
    requires MenuOk(m)
    ensures MenuOk(MenuStep(m, t))
    ensures 0 <= m.startLevel <= MaxLevel ==> 0 <= MenuStep(m, t).startLevel <= MaxLevel
    ensures MenuStep(m, t).startLevel != m.startLevel ==>
      m.option == LevelOpt && (MenuStep(m, t).startLevel == m.startLevel + 1 || MenuStep(m, t).startLevel == m.startLevel - 1)
  {
  }

  /** Only A on the name row changes a name character, and only the highlighted one, by one step. */
  lemma MenuStepChars(m: MenuView, t: InputType)
    requires MenuOk(m)
    ensures forall i :: 0 <= i < |m.chars| && (i != m.x || t != AIn || m.option != NameOpt) ==>
      MenuStep(m, t).chars[i] == m.chars[i]
    ensures t == AIn && m.option == NameOpt ==> MenuStep(m, t).chars[m.x] == NextNameChar(m.chars[m.x])
  {
  }

  /** Name characters that start in the alphabet (space, A-Z, 0-9) stay in it. */
  lemma MenuStepAlphabet(m: MenuView, t: InputType)
    requires MenuOk(m) && forall i :: 0 <= i < |m.chars| ==> InNameAlphabet(m.chars[i])
    ensures forall i :: 0 <= i < |MenuStep(m, t).chars| ==> InNameAlphabet(MenuStep(m, t).chars[i])
  {
    if t == AIn && m.option == NameOpt {
      NameAlphabetChars(m.chars[m.x]);
      var k :| 0 <= k < 37 && NameChar(k) == m.chars[m.x];
      NameCharCycle(k);
      NameAlphabetChars(NameChar((k + 1) % 37));
    }
  }

  /** n presses of the same input: MenuStep applied n times. */
  function MenuSteps(m: MenuView, t: InputType, n: nat): (r: MenuView)
    requires MenuOk(m)
    ensures MenuOk(r)
  {
    if n == 0 then m
    else
      var r := MenuSteps(m, t, n - 1);
      MenuStepKeeps(r, t);
      MenuStep(r, t)
  }

  /** n presses of A on the name row step the highlighted character n times and change nothing else. */
  lemma {:induction false} NamePresses(m: MenuView, n: nat)
    requires MenuOk(m) && m.option == NameOpt
    ensures MenuSteps(m, AIn, n) == m.(chars := m.chars[m.x := StepNameChar(m.chars[m.x], n)])
  {
    if n > 0 {
      NamePresses(m, n - 1);
    }
  }

  /** Thirty-seven presses of A on a name character of the alphabet bring the name back. */
  lemma FullCircle(m: MenuView)
    requires MenuOk(m) && m.option == NameOpt && InNameAlphabet(m.chars[m.x])
    ensures MenuSteps(m, AIn, 37) == m
  {
    NamePresses(m, 37);
    StepNameCharPeriod(m.chars[m.x], 37);
    assert m.chars[m.x := m.chars[m.x]] == m.chars;
  }

  /** The name characters of a new menu: the name, cut or padded with spaces to ten. */
  function Padded(name: string): (r: seq<char>)
    ensures |r| == NameLength
    ensures forall i :: 0 <= i < NameLength ==> r[i] == if i < |name| then name[i] else ' '
  {
    seq(NameLength, i requires 0 <= i < NameLength => if i < |name| then name[i] else ' ')
  }

  /** A name of at most ten characters, with no blank at either end, comes back out of its padded characters. */
  lemma PaddedName(name: string)
    requires |name| <= NameLength
    requires name != [] ==> !Blank(name[0]) && !Blank(name[|name| - 1])
    ensures Trim(Padded(name)) == name
  {
    var s := Padded(name);
    var lo := SkipLeading(s, 0);
    if name == [] {
      assert lo == |s|;
    } else {
      assert lo == 0;
      var hi := SkipTrailing(s, 0, |s|);
      assert forall i :: |name| <= i < |s| ==> Blank(s[i]);
      SkipTrailingPast(s, |name|);
      assert hi == |name|;
      assert s[..|name|] == name;
    }
  }

  /** Skipping trailing blanks from the end stops right after the last non-blank. */
  lemma SkipTrailingPast(s: string, k: nat)
    requires 0 < k <= |s| && !Blank(s[k - 1])
    requires forall i :: k <= i < |s| ==> Blank(s[i])
    ensures SkipTrailing(s, 0, |s|) == k
  {
  }

  /**
   * MenuManager.close decides whether to restart the game: as written it
   * compares the start level by value and the name by String reference,
   * and any name built by the editor is a new String.
   */
  function RestartsAsWritten(startLevel: int, oldStartLevel: int, nameRebuilt: bool): (b: bool)
    ensures nameRebuilt ==> b
    ensures !nameRebuilt ==> (b <==> startLevel != oldStartLevel)
  {
    startLevel != oldStartLevel || nameRebuilt
  }

  /** MenuManager.close as its documentation describes it: restart when the level or the name changed. */
  function Restarts(startLevel: int, oldStartLevel: int, name: string, oldName: string): (b: bool)
    ensures !b <==> startLevel == oldStartLevel && name == oldName
  {
    startLevel != oldStartLevel || name != oldName
  }

  /**
   * Thirty-seven presses of A on one name character give back the name the
   * menu was opened with, yet the reference comparison restarts the game
   * and records the score, where the value comparison carries on.
   */
  lemma RetypedNameRestarts(m: MenuView, level: int)
    requires MenuOk(m) && m.option == NameOpt && InNameAlphabet(m.chars[m.x])
    ensures var back := Trim(MenuSteps(m, AIn, 37).chars);
      RestartsAsWritten(level, level, true) && !Restarts(level, level, back, Trim(m.chars))
  {
    FullCircle(m);
  }

  /** A GameManager's own values: everything but the grid, input and menu objects it holds. */
  datatype Session = Session(
    name: string, oldName: string, score: int, highScores: seq<Row>, displayedScores: seq<Row>,
    startLevel: int, oldStartLevel: int, level: int, startDelay: int, inactiveTimer: int,
    intenseMode: bool, inMenu: bool, jeff: bool, alwaysIntense: bool, madeTop10: bool, madeTop2: bool)

  /**
   * The values the first half of reset leaves: the inactivity timer
   * restarted unless it ran out (the AI plays), and a positive score saved
   * and the displayed table rebuilt.
   */
  function Ended(s: Session): Session
  {
    var hs := if s.score > 0 then SaveRow(s.highScores, (s.name, s.score)) else s.highScores;
    s.(inactiveTimer := if s.inactiveTimer > 0 then InactiveFrames else s.inactiveTimer,
       highScores := hs, displayedScores := if s.score > 0 then FirstRows(hs, |hs|) else s.displayedScores)
  }

  /** The values the cheat-name switch of startGame(chosen) leaves (CheatsFor). */
  function Cheated(s: Session, chosen: int): Session
  {
    var c := CheatsFor(s.name, chosen, Cheats(s.startLevel, s.jeff, s.alwaysIntense, false));
    s.(startLevel := c.startLevel, jeff := c.jeff, alwaysIntense := c.alwaysIntense,
       madeTop10 := s.madeTop10 && !c.resetTop, madeTop2 := s.madeTop2 && !c.resetTop)
  }

  /**
   * The values the rest of startGame leaves: no score, the start level,
   * the start delay, intense exactly when always-intense is on, and the
   * name remembered.
   */
  function Begun(s: Session): Session
  {
    s.(score := 0, level := s.startLevel, startDelay := StartDelayFrames, intenseMode := s.alwaysIntense,
       oldName := s.name)
  }

  /** The values startGame(chosen) leaves. */
  function Started(s: Session, chosen: int): Session
  {
    Begun(Cheated(s, chosen))
  }

  /** The values reset leaves: Ended, then a game started at the start level. */
  function AfterReset(s: Session): (r: Session)
    ensures 0 <= s.startLevel <= MaxLevel ==> 0 <= r.startLevel <= MaxLevel && r.level == r.startLevel
    ensures r.score == 0 && r.name == s.name && r.oldName == s.name && r.inMenu == s.inMenu
    ensures r.oldStartLevel == s.oldStartLevel && (r.inactiveTimer == 0 <==> s.inactiveTimer == 0)
    ensures r.highScores == if s.score > 0 then SaveRow(s.highScores, (s.name, s.score)) else s.highScores
  {
    Started(Ended(s), s.startLevel)
  }

  /**
   * Everything a GameManager's input handling can change: its own values;
   * its grid, that grid's board, piece and fields; the contents of the
   * input arrays (pressed, triggered, timers, delays, start delays); and the
   * menu's highlighted option, button and name characters.
   */
  datatype GameState = GameState(
    session: Session, grid: GridManager, board: Board, piece: PieceState, fields: GridFields,
    inputs: seq<bool>, triggers: seq<bool>, timers: seq<int>, delays: seq<int>, starts: seq<int>,
    option: MenuOption, x: int, chars: seq<char>)

  /** Six slots in each input array, a menu that keeps MenuOk, and levels that are levels. */
  predicate StateOk(f: GameState)
  {
    |f.inputs| == InputCount && |f.triggers| == InputCount && |f.timers| == InputCount
    && |f.delays| == InputCount && |f.starts| == InputCount
    && MenuOk(MenuView(f.option, f.x, f.chars, f.session.startLevel))
    && 0 <= f.session.startLevel <= MaxLevel && 0 <= f.session.level <= MaxLevel
  }

  /**
   * reset into grid g: the values of AfterReset, an empty board, the first
   * piece at the spawn point, the second one next, and the other grid
   * fields of a new grid at the new level.
   */
  function NewGameIn(f: GameState, g: GridManager, first: PieceType, second: PieceType): (r: GameState)
    requires StateOk(f)
    ensures StateOk(r)
  {
    var s := AfterReset(f.session);
    f.(session := s, grid := g, board := EmptyBoard(), piece := Spawned(first, PieceSpawnX, PieceSpawnY(first), false),
       fields := FreshFields(second, s.level))
  }

  /** A reset does not depend on the board, piece and fields it replaces. */
  lemma NewGameForgets(f: GameState, b: Board, q: PieceState, fields: GridFields, g: GridManager, first: PieceType, second: PieceType)
    requires StateOk(f)
    ensures NewGameIn(f.(board := b, piece := q, fields := fields), g, first, second) == NewGameIn(f, g, first, second)
  {
  }

  /** Restarting does not depend on which grid the played input left behind. */
  lemma RestartForgetsGrid(f: GameState, t: InputType, g1: GridManager, g2: GridManager, first: PieceType, second: PieceType)
    requires StateOk(f)
    ensures Restarted(Played(f, t, g1, first, second), g2, first, second)
      == Restarted(Played(f, t, g2, first, second), g2, first, second)
  {
  }

  /**
   * LEFT or RIGHT in play: the piece moved that way when it can; the
   * opposite input released; and a blocked move charges its own input.
   */
  function ShiftPlayed(f: GameState, t: InputType): (r: GameState)
    requires StateOk(f)
    ensures StateOk(r)
  {
    var d := if t == LeftIn then Left else Right;
    var o := if t == LeftIn then 1 else 0;
    var (q, bumped) := Move(f.board, f.piece, d);
    f.(piece := q, inputs := f.inputs[o := false], triggers := f.triggers[o := false],
       timers := Charged(f.timers, bumped && t == LeftIn, bumped && t == RightIn))
  }

  /** A (counterclockwise) or B (clockwise) in play: the checked turn. */
  function TurnPlayed(f: GameState, cw: bool): (r: GameState)
    requires StateOk(f)
    ensures StateOk(r)
  {
    f.(piece := Rotate(f.board, f.piece, cw, false))
  }

  /** UP in play: the menu toggled, the start level and name remembered, DOWN on its menu timing. */
  function PausePlayed(f: GameState): (r: GameState)
    requires StateOk(f)
    ensures StateOk(r)
  {
    f.(session := f.session.(oldStartLevel := f.session.startLevel, oldName := f.session.name, inMenu := !f.session.inMenu),
       delays := f.delays[3 := 18], starts := f.starts[3 := 4])
  }

  /**
   * DOWN in play: the piece one row lower when it fits; otherwise locked
   * into the board where it stands, with the full rows recorded and the
   * spawn delay started; and when it locks above the top, reset into g.
   */
  function DropPlayed(f: GameState, g: GridManager, first: PieceType, second: PieceType): (r: GameState)
    requires StateOk(f)
    ensures StateOk(r)
  {
    if Move(f.board, f.piece, Down).1 && AboveTop(Cells(f.piece)) then NewGameIn(f, g, first, second)
    else
      var (b, q, fields) := DownMove(f.board, f.piece, f.fields);
      f.(board := b, piece := q, fields := fields)
  }

  /** The game half of executeFunction's switch, for each input. */
  function Played(f: GameState, t: InputType, g: GridManager, first: PieceType, second: PieceType): (r: GameState)
    requires StateOk(f)
    ensures StateOk(r)
  {
    match t
    case LeftIn => ShiftPlayed(f, t)
    case RightIn => ShiftPlayed(f, t)
    case UpIn => PausePlayed(f)
    case DownIn => DropPlayed(f, g, first, second)
    case AIn => TurnPlayed(f, false)
    case BIn => TurnPlayed(f, true)
    case NullIn => f
  }

  /** The AI's game abandoned: reset into g, with the menu open on the new game. */
  function Restarted(f: GameState, g: GridManager, first: PieceType, second: PieceType): (r: GameState)
    requires StateOk(f)
    ensures StateOk(r)
  {
    var n := NewGameIn(f, g, first, second);
    n.(session := n.session.(oldStartLevel := n.session.startLevel, oldName := n.session.name, inMenu := true))
  }

  /** The play branch of executeFunction: the input played, then the restart when the AI was playing. */
  function PlayedTurn(f: GameState, t: InputType, g: GridManager, first: PieceType, second: PieceType): (r: GameState)
    requires StateOk(f)
    ensures StateOk(r)
  {
    var p := Played(f, t, g, first, second);
    if p.session.inactiveTimer == 0 then Restarted(p, g, first, second) else p
  }

  /**
   * Any menu input but B: the menu and the start level make one MenuStep,
   * and A on the name row gives the game the name rebuilt from the characters.
   */
  function Edited(f: GameState, t: InputType): (r: GameState)
    requires StateOk(f)
    ensures StateOk(r)
  {
    var m0 := MenuView(f.option, f.x, f.chars, f.session.startLevel);
    MenuStepKeeps(m0, t);
    var m := MenuStep(m0, t);
    WithMenu(f, m, if t == AIn && f.option == NameOpt then Trim(m.chars) else f.session.name)
  }

  /** The game state with the menu, the start level and the name replaced. */
  function WithMenu(f: GameState, m: MenuView, name: string): GameState
  {
    f.(option := m.option, x := m.x, chars := m.chars, session := f.session.(startLevel := m.startLevel, name := name))
  }

  /**
   * B in the menu: DOWN back on its play timing, the menu off, and reset
   * into g when the start level or the name differs from what it was when
   * the menu opened.
   */
  function Closed(f: GameState, g: GridManager, first: PieceType, second: PieceType): (r: GameState)
    requires StateOk(f)
    ensures StateOk(r)
  {
    var d := f.(session := f.session.(inMenu := false), delays := f.delays[3 := 0], starts := f.starts[3 := 2]);
    if Restarts(f.session.startLevel, f.session.oldStartLevel, f.session.name, f.session.oldName)
    then NewGameIn(d, g, first, second)
    else d
  }

  /** The menu branch of executeFunction: B closes the menu, anything else edits. */
  function MenuTurn(f: GameState, t: InputType, g: GridManager, first: PieceType, second: PieceType): (r: GameState)
    requires StateOk(f)
    ensures StateOk(r)
  {
    if t == BIn then Closed(f, g, first, second) else Edited(f, t)
  }

  /** executeFunction's last line: the player is active again. */
  function Active(f: GameState): GameState
  {
    f.(session := f.session.(inactiveTimer := InactiveFrames))
  }

  /**
   * MenuManager: the highlighted option and button and the ten editable
   * name characters. The game it edits is passed to its methods.
   */
  class MenuManager {
    var selectedOption: MenuOption
    var selectedOptionX: int
    const nameCharacters: array<char>

    predicate Valid()
      reads this
    {
      nameCharacters.Length == NameLength && 0 <= selectedOptionX < OptionLength(selectedOption)
    }

    /** The menu with the game's start level. */
    function View(startLevel: int): (m: MenuView)
      reads this, nameCharacters
    {
      MenuView(selectedOption, selectedOptionX, nameCharacters[..], startLevel)
    }

    /** MenuManager(gameManager): the name row, its first button, and the name padded with spaces. */
    constructor (name: string)
      ensures Valid() && fresh(nameCharacters)
      ensures selectedOption == NameOpt && selectedOptionX == 0 && nameCharacters[..] == Padded(name)
    {
      selectedOption := NameOpt;
      selectedOptionX := 0;
      var chars := new char[NameLength](_ => ' ');
      var i := 0;
      while i < chars.Length
        invariant 0 <= i <= chars.Length
        invariant forall k :: 0 <= k < i ==> chars[k] == Padded(name)[k]
      {
        chars[i] := if i < |name| then name[i] else ' ';
        i := i + 1;
      }
      nameCharacters := chars;
    }

    /** MenuManager.getNameFromChars: the ten characters joined and trimmed. */
    method GetNameFromChars() returns (name: string)
      requires Valid()
      ensures name == Trim(nameCharacters[..])
    {
      var joined := "";
      var i := 0;
      while i < nameCharacters.Length
        invariant 0 <= i <= nameCharacters.Length
        invariant joined == nameCharacters[..i]
      {
        joined := joined + [nameCharacters[i]];
        i := i + 1;
      }
      assert joined == nameCharacters[..];
      name := Trim(joined);
    }

    /** MenuManager.executeFunction for every input but B: the game state makes the step Edited. */
    method Edit(g: GameManager, t: InputType)
      requires g.Valid() && g.menu == this && t != BIn
      modifies this`selectedOption, this`selectedOptionX, nameCharacters, g`startLevel, g`name
      ensures g.Valid() && g.State() == Edited(old(g.State()), t)
    {
      ghost var f := g.State();
      MenuStepKeeps(View(g.startLevel), t);
      Step(g, t);
      assert g.State() == WithMenu(f, View(g.startLevel), g.name);
    }

    /**
     * The switch of MenuManager.executeFunction for every input but B: the
     * menu and the game's start level make one MenuStep, and A on the name
     * row gives the game the name rebuilt from the characters.
     */
    method Step(g: GameManager, t: InputType)
      requires Valid() && t != BIn
      modifies this`selectedOption, this`selectedOptionX, nameCharacters, g`startLevel, g`name
      ensures Valid()
      ensures View(g.startLevel) == MenuStep(old(View(g.startLevel)), t)
      ensures g.name == if t == AIn && old(selectedOption) == NameOpt then Trim(nameCharacters[..]) else old(g.name)
    {
      match t
      case LeftIn =>
        if selectedOptionX > 0 {
          selectedOptionX := selectedOptionX - 1;
        } else if selectedOption == LevelOpt && g.startLevel > 0 {
          g.startLevel := g.startLevel - 1;
        }
      case RightIn =>
        if selectedOptionX < OptionLength(selectedOption) - 1 {
          selectedOptionX := selectedOptionX + 1;
        } else if selectedOption == LevelOpt && g.startLevel < MaxLevel {
          g.startLevel := g.startLevel + 1;
        }
      case UpIn =>
        if OptionIndex(selectedOption) > 0 {
          selectedOption := OptionAt(OptionIndex(selectedOption) - 1);
        }
      case DownIn =>
        if selectedOption == NameOpt {
          selectedOptionX := 0;
        }
        if OptionIndex(selectedOption) < 3 {
          selectedOption := OptionAt(OptionIndex(selectedOption) + 1);
        }
      case AIn =>
        if selectedOption == NameOpt {
          nameCharacters[selectedOptionX] := NextNameChar(nameCharacters[selectedOptionX]);
          g.name := GetNameFromChars();
        } else if selectedOption == LevelOpt {
          if selectedOptionX == 0 {
            if g.startLevel > 0 {
              g.startLevel := g.startLevel - 1;
            }
          } else if g.startLevel < MaxLevel - 1 {
            g.startLevel := g.startLevel + 1;
          }
        }
      case NullIn =>
    }

    /**
     * MenuManager.executeFunction: B closes the menu, any other input is
     * an Edit.
     */
    method ExecuteFunction(g: GameManager, t: InputType, first: PieceType, second: PieceType)
      requires Valid() && g.Valid() && g.menu == this
      modifies this`selectedOption, this`selectedOptionX, nameCharacters, g, g.input.delayTimer, g.input.startInputTimer
      ensures g.Valid() && g.State() == MenuTurn(old(g.State()), t, g.grid, first, second)
      ensures g.grid != old(g.grid) ==> fresh(g.grid)
    {
      if t == BIn {
        Close(g, first, second);
      } else {
        Edit(g, t);
      }
    }

    /**
     * MenuManager.close: DOWN back to its play timing, the menu off, and a
     * new game (recording the score) when the start level or the name
     * differs from what it was when the menu opened.
     */
    method Close(g: GameManager, first: PieceType, second: PieceType)
      requires g.Valid() && g.menu == this
      modifies g, g.input.delayTimer, g.input.startInputTimer
      ensures g.Valid() && g.State() == Closed(old(g.State()), g.grid, first, second)
      ensures g.grid != old(g.grid) ==> fresh(g.grid)
    {
      g.Leave();
      if Restarts(g.startLevel, g.oldStartLevel, g.name, g.oldName) {
        g.Reset(first, second);
      }
    }
  }

  /**
   * The loop of GameManager.getScoresNoDuplicates: the rows of the table
   * whose name has not been seen yet, in table order.
   */
  method NoDuplicates(table: seq<Row>) returns (r: seq<Row>)
    ensures r == FirstRows(table, |table|)
  {
    var names: seq<string> := [];
    r := [];
    var i := 0;
    while i < |table|
      invariant 0 <= i <= |table|
      invariant r == FirstRows(table, i)
      invariant forall j :: 0 <= j < i ==> table[j].0 in names
      invariant forall nm :: nm in names ==> exists j :: 0 <= j < i && table[j].0 == nm
    {
      var row := table[i];
      if row.0 !in names {
        assert FirstOfName(table, i);
        r := r + [row];
        names := names + [row.0];
      } else {
        assert !FirstOfName(table, i);
      }
      i := i + 1;
    }
  }

  /**
   * GameManager: the player's name, score and score table, the start
   * level, the timers of one game, the cheat flags, and the grid, input
   * and menu it owns.
   */
  class GameManager {
    var name: string
    var oldName: string
    var score: int
    var highScores: seq<Row>
    var displayedScores: seq<Row>
    var startLevel: int
    var oldStartLevel: int
    var level: int
    var startDelay: int
    var inactiveTimer: int
    var intenseMode: bool
    var inMenu: bool
    const input: InputManager
    var grid: GridManager
    const menu: MenuManager
    var jeff: bool
    var alwaysIntense: bool
    var madeTop10: bool
    var madeTop2: bool

    /** The grid, input and menu well formed, and the start level and level both levels. */
    ghost predicate Valid()
      reads this`grid, this`startLevel, this`level, grid, grid.current, grid.current.relPos, menu
    {
      grid.Valid() && input.Valid() && menu.Valid()
      && 0 <= startLevel <= MaxLevel && 0 <= level <= MaxLevel
    }

    /** The state startGame leaves: no score, the start level, an empty grid with the drawn pieces. */
    ghost predicate NewGame(first: PieceType, second: PieceType)
      reads this, grid, grid.current, grid.current.relPos, grid.blocks
      requires grid.Valid()
    {
      score == 0 && level == startLevel && startDelay == StartDelayFrames
      && intenseMode == alwaysIntense && oldName == name
      && grid.Board() == EmptyBoard() && grid.next == second
      && grid.current.State() == Spawned(first, PieceSpawnX, PieceSpawnY(first), false)
      && 0 <= level <= MaxLevel && grid.Fields() == FreshFields(second, level)
    }

    /** The game's own values as one Session. */
    ghost function Snapshot(): Session
      reads this
    {
      Session(name, oldName, score, highScores, displayedScores, startLevel, oldStartLevel, level, startDelay,
        inactiveTimer, intenseMode, inMenu, jeff, alwaysIntense, madeTop10, madeTop2)
    }

    /** Everything input handling can change, as one GameState. */
    ghost function State(): (r: GameState)
      requires Valid()
      reads this, grid, grid.current, grid.current.relPos, grid.blocks, menu, menu.nameCharacters
      reads input.inputs, input.triggers, input.timers, input.delayTimer, input.startInputTimer
      ensures StateOk(r)
    {
      var k := Keys();
      GameState(Snapshot(), grid, grid.Board(), grid.current.State(), grid.Fields(),
        k.0, k.1, k.2, k.3, k.4, menu.selectedOption, menu.selectedOptionX, menu.nameCharacters[..])
    }

    /** The five arrays of the input manager, as values. */
    ghost function Keys(): (seq<bool>, seq<bool>, seq<int>, seq<int>, seq<int>)
      reads input.inputs, input.triggers, input.timers, input.delayTimer, input.startInputTimer
    {
      (input.inputs[..], input.triggers[..], input.timers[..], input.delayTimer[..], input.startInputTimer[..])
    }

    /**
     * GameManager(application, usingController): player "PLAYER" at level
     * 0, the saved score table, nothing pressed, the menu on the name, and a
     * first grid.
     */
    constructor (saved: seq<Row>, first: PieceType, second: PieceType)
      ensures Valid() && fresh(grid) && fresh(menu) && fresh(menu.nameCharacters)
      ensures Snapshot() == Session("PLAYER", "PLAYER", 0, saved, FirstRows(saved, |saved|), 0, 0, 0,
        StartDelayFrames, InactiveFrames, false, false, false, false, false, false)
      ensures menu.nameCharacters[..] == Padded("PLAYER")
      ensures forall i :: 0 <= i < InputCount ==> input.Slot(i) == Released
      ensures grid.Board() == EmptyBoard() && grid.next == second
      ensures grid.current.State() == Spawned(first, PieceSpawnX, PieceSpawnY(first), false)
    {
      name := "PLAYER";
      oldName := "PLAYER";
      score := 0;
      highScores := saved;
      startLevel := 0;
      oldStartLevel := 0;
      level := 0;
      startDelay := StartDelayFrames;
      inactiveTimer := InactiveFrames;
      intenseMode := false;
      inMenu := false;
      menu := new MenuManager("PLAYER");
      grid := new GridManager(0, first, second);
      input := new InputManager();
      jeff := false;
      alwaysIntense := false;
      madeTop10 := false;
      madeTop2 := false;
      var shown := NoDuplicates(saved);
      displayedScores := shown;
    }

    /**
     * GameManager.getScoresNoDuplicates: the rows of the table whose name
     * has not been seen yet, in table order.
     */
    method GetScoresNoDuplicates() returns (r: seq<Row>)
      ensures r == FirstRows(highScores, |highScores|)
    {
      r := NoDuplicates(highScores);
    }

    /**
     * GameManager.saveScore: the player's row appended and, for a positive
     * score, swapped up past every row that scores less; then the
     * displayed scores rebuilt.
     */
    method SaveScore()
      modifies this`highScores, this`displayedScores
      ensures highScores == SaveRow(old(highScores), (name, score))
      ensures displayedScores == FirstRows(highScores, |highScores|)
    {
      ghost var t := highScores;
      var row := (name, score);
      highScores := highScores + [row];
      if score > 0 {
        var i := |highScores| - 2;
        while i >= 0 && highScores[i + 1].1 > highScores[i].1
          invariant -1 <= i < |t|
          invariant highScores == t[..i + 1] + [row] + t[i + 1..]
          invariant forall j :: i < j < |t| ==> t[j].1 < score
        {
          BubbleSwap(t, row, i);
          highScores := highScores[i := highScores[i + 1]][i + 1 := highScores[i]];
          i := i - 1;
        }
        SinkPointUnique(t, score, i + 1);
      } else {
        assert t[..|t|] + [row] + t[|t|..] == t + [row];
      }
      displayedScores := GetScoresNoDuplicates();
    }

    /**
     * GameManager.startGame: the cheat-name switch (CheatsFor), then a new
     * game at the start level with a fresh grid, intense from the start
     * when always-intense is on.
     */
    method StartGame(chosen: int, first: PieceType, second: PieceType)
      requires Valid() && 0 <= chosen <= MaxLevel
      modifies this`startLevel, this`jeff, this`alwaysIntense, this`madeTop10, this`madeTop2
      modifies this`score, this`level, this`grid, this`startDelay, this`intenseMode, this`oldName
      ensures Valid() && fresh(grid) && NewGame(first, second)
      ensures Snapshot() == Started(old(Snapshot()), chosen)
    {
      ApplyCheats(chosen);
      Begin(first, second);
    }

    /** The second half of GameManager.startGame: the values a game starts from, and a new grid. */
    method Begin(first: PieceType, second: PieceType)
      requires Valid()
      modifies this`score, this`level, this`grid, this`startDelay, this`intenseMode, this`oldName
      ensures Valid() && fresh(grid) && NewGame(first, second) && Snapshot() == Begun(old(Snapshot()))
    {
      BeginValues();
      grid := new GridManager(level, first, second);
    }

    /** The values a game starts from, set by startGame besides the new grid. */
    method BeginValues()
      modifies this`score, this`level, this`startDelay, this`intenseMode, this`oldName
      ensures Snapshot() == Begun(old(Snapshot()))
    {
      score := 0;
      level := startLevel;
      startDelay := StartDelayFrames;
      intenseMode := alwaysIntense;
      oldName := name;
    }

    /** The cheat-name switch at the top of GameManager.startGame. */
    method ApplyCheats(chosen: int)
      requires 0 <= startLevel <= MaxLevel && 0 <= chosen <= MaxLevel
      modifies this`startLevel, this`jeff, this`alwaysIntense, this`madeTop10, this`madeTop2
      ensures 0 <= startLevel <= MaxLevel && Snapshot() == Cheated(old(Snapshot()), chosen)
      ensures var c := CheatsFor(name, chosen, Cheats(old(startLevel), old(jeff), old(alwaysIntense), false));
        startLevel == c.startLevel && jeff == c.jeff && alwaysIntense == c.alwaysIntense
        && madeTop10 == (old(madeTop10) && !c.resetTop) && madeTop2 == (old(madeTop2) && !c.resetTop)
    {
      if name == "JEFF" {
        jeff := true;
        madeTop10 := false;
        madeTop2 := false;
      } else if name == "JOSEPH" {
        startLevel := 15;
      } else if name == "INTENSE" {
        alwaysIntense := true;
      } else if name == "LOGAN" || name == "MARK" {
        alwaysIntense := true;
        startLevel := 16;
      } else {
        jeff := false;
        alwaysIntense := false;
        startLevel := chosen;
      }
    }

    /**
     * GameManager.reset: the inactivity timer restarted unless the AI is
     * playing, a positive score saved, and a new game at the start level.
     */
    method Reset(first: PieceType, second: PieceType)
      requires Valid()
      modifies this`inactiveTimer, this`highScores, this`displayedScores
      modifies this`startLevel, this`jeff, this`alwaysIntense, this`madeTop10, this`madeTop2
      modifies this`score, this`level, this`grid, this`startDelay, this`intenseMode, this`oldName
      ensures Valid() && fresh(grid) && NewGame(first, second)
      ensures Snapshot() == AfterReset(old(Snapshot()))
      ensures State() == NewGameIn(old(State()), grid, first, second)
    {
      EndGame();
      StartGame(startLevel, first, second);
    }

    /** The first half of GameManager.reset: the inactivity timer restarted unless the AI plays, a positive score saved. */
    method EndGame()
      modifies this`inactiveTimer, this`highScores, this`displayedScores
      ensures inactiveTimer == if old(inactiveTimer) > 0 then InactiveFrames else old(inactiveTimer)
      ensures highScores == if score > 0 then SaveRow(old(highScores), (name, score)) else old(highScores)
      ensures score > 0 ==> displayedScores == FirstRows(highScores, |highScores|)
      ensures score <= 0 ==> displayedScores == old(displayedScores)
      ensures Snapshot() == Ended(old(Snapshot()))
    {
      if inactiveTimer > 0 {
        inactiveTimer := InactiveFrames;
      }
      if score > 0 {
        SaveScore();
      }
    }

    /**
     * The game half of GameManager.executeFunction: LEFT and RIGHT go to
     * Shift, UP to Pause, DOWN to Drop, A and B to Turn, whose contracts
     * state each input's effect; only UP toggles the menu.
     */
    method PlayInput(t: InputType, first: PieceType, second: PieceType)
      requires Valid()
      modifies this`inactiveTimer, this`highScores, this`displayedScores
      modifies this`startLevel, this`jeff, this`alwaysIntense, this`madeTop10, this`madeTop2
      modifies this`score, this`level, this`grid, this`startDelay, this`intenseMode, this`oldName
      modifies this`oldStartLevel, this`inMenu
      modifies grid.current`x, grid.current`y, grid.current`locked, grid.current`orientation, grid.current.relPos
      modifies grid.blocks, grid`linesToClear, grid`nextPieceTimer
      modifies input.inputs, input.triggers, input.timers, input.delayTimer, input.startInputTimer
      ensures Valid() && State() == Played(old(State()), t, grid, first, second)
      ensures grid != old(grid) ==> fresh(grid)
    {
      if t == DownIn {
        Drop(first, second);
      } else {
        Steer(t, first, second);
      }
    }

    /** The inputs of playInput that keep the grid: LEFT, RIGHT, UP, A, B and none. */
    method Steer(t: InputType, ghost first: PieceType, ghost second: PieceType)
      requires Valid() && t != DownIn
      modifies this`oldStartLevel, this`oldName, this`inMenu
      modifies grid.current`x, grid.current`y, grid.current`orientation, grid.current.relPos
      modifies input.inputs, input.triggers, input.timers, input.delayTimer, input.startInputTimer
      ensures Valid() && State() == Played(old(State()), t, grid, first, second)
    {
      match t
      case LeftIn => Shift(t);
      case RightIn => Shift(t);
      case UpIn => Pause();
      case AIn => Turn(false);
      case BIn => Turn(true);
      case NullIn =>
    }

    /** A (counterclockwise) or B (clockwise) in play: the piece turned when it can. */
    method Turn(cw: bool)
      requires Valid()
      modifies grid.current`orientation, grid.current.relPos
      ensures Valid() && State() == TurnPlayed(old(State()), cw)
    {
      grid.RotateCurrentPiece(cw, false);
    }

    /** LEFT or RIGHT in play: the piece moved that way, the opposite direction released. */
    method Shift(t: InputType)
      requires Valid() && (t == LeftIn || t == RightIn)
      modifies grid.current`x, grid.current`y, input.timers, input.inputs, input.triggers
      ensures Valid() && State() == ShiftPlayed(old(State()), t)
    {
      var d, o := if t == LeftIn then Left else Right, if t == LeftIn then 1 else 0;
      // moveCurrentPiece(d, true): a sideways move never locks, so it is MoveOrCharge.
      var _ := grid.MoveOrCharge(d, input);
      input.Release(o);
    }

    /** UP in play: the menu toggled, remembering the start level and name it opened with. */
    method Pause()
      requires Valid()
      modifies this`oldStartLevel, this`oldName, this`inMenu, input.delayTimer, input.startInputTimer
      ensures Valid() && State() == PausePlayed(old(State()))
    {
      input.ChangeDelays(true);
      Toggle();
    }

    /** The start of MenuManager.close: DOWN back on its play timing, and the menu off. */
    method Leave()
      requires Valid()
      modifies this`inMenu, input.delayTimer, input.startInputTimer
      ensures Valid()
      ensures var f := old(State());
        State() == f.(session := f.session.(inMenu := false), delays := f.delays[3 := 0], starts := f.starts[3 := 2])
    {
      input.ChangeDelays(false);
      inMenu := false;
    }

    /** The values UP changes: the start level and name remembered, and the menu toggled. */
    method Toggle()
      modifies this`oldStartLevel, this`oldName, this`inMenu
      ensures Snapshot() == old(Snapshot()).(oldStartLevel := startLevel, oldName := name, inMenu := !old(inMenu))
    {
      oldStartLevel := startLevel;
      oldName := name;
      inMenu := !inMenu;
    }

    /** DOWN in play: the piece moved down, locked when it lands, and a new game when it locks above the top. */
    method Drop(first: PieceType, second: PieceType)
      requires Valid()
      modifies this`inactiveTimer, this`highScores, this`displayedScores
      modifies this`startLevel, this`jeff, this`alwaysIntense, this`madeTop10, this`madeTop2
      modifies this`score, this`level, this`grid, this`startDelay, this`intenseMode, this`oldName
      modifies grid.current`x, grid.current`y, grid.current`locked, grid.blocks, grid`linesToClear, grid`nextPieceTimer
      modifies input.timers
      ensures Valid() && State() == DropPlayed(old(State()), grid, first, second)
      ensures grid != old(grid) ==> fresh(grid)
    {
      ghost var f := State();
      var over := DropPiece(first, second);
      if over {
        ResetAfterDrop(f, first, second);
      }
    }

    /** The end of DOWN in play when the piece locked above the top: reset, into a new game. */
    method ResetAfterDrop(ghost f: GameState, first: PieceType, second: PieceType)
      requires Valid() && StateOk(f) && Move(f.board, f.piece, Down).1 && AboveTop(Cells(f.piece))
      requires var (b, q, fields) := DownMove(f.board, f.piece, f.fields);
        State() == f.(board := b, piece := q, fields := fields)
      modifies this`inactiveTimer, this`highScores, this`displayedScores
      modifies this`startLevel, this`jeff, this`alwaysIntense, this`madeTop10, this`madeTop2
      modifies this`score, this`level, this`grid, this`startDelay, this`intenseMode, this`oldName
      ensures Valid() && fresh(grid) && State() == DropPlayed(f, grid, first, second)
    {
      ghost var (b, q, fields) := DownMove(f.board, f.piece, f.fields);
      Reset(first, second);
      NewGameForgets(f, b, q, fields, grid, first, second);
    }

    /** The grid's half of DOWN in play: moveCurrentPiece(DOWN, true), which never charges an input. */
    method DropPiece(first: PieceType, second: PieceType) returns (over: bool)
      requires Valid()
      modifies grid.current`x, grid.current`y, grid.current`locked, grid.blocks, grid`linesToClear, grid`nextPieceTimer
      modifies input.timers
      ensures Valid()
      ensures var (b, q, fields) := DownMove(old(grid.Board()), old(grid.current.State()), old(grid.Fields()));
        State() == old(State()).(board := b, piece := q, fields := fields)
      ensures over <==> Move(old(grid.Board()), old(grid.current.State()), Down).1 && AboveTop(Cells(old(grid.current.State())))
      ensures !over ==> State() == DropPlayed(old(State()), grid, first, second)
    {
      over := grid.MoveDown(input);
    }

    /**
     * GameManager.executeFunction: in the menu the input goes to the menu;
     * in play it goes to the grid, and when the AI was playing the game
     * restarts into the menu. Either way the player is no longer inactive.
     */
    method ExecuteFunction(t: InputType, first: PieceType, second: PieceType)
      requires Valid()
      modifies this, grid, grid.current, grid.current.relPos, grid.blocks
      modifies input.inputs, input.triggers, input.timers, input.delayTimer, input.startInputTimer
      modifies menu, menu.nameCharacters
      ensures Valid()
      ensures State() == Active(if old(inMenu) then MenuTurn(old(State()), t, grid, first, second)
                                else PlayedTurn(old(State()), t, grid, first, second))
      ensures grid != old(grid) ==> fresh(grid)
    {
      if inMenu {
        menu.ExecuteFunction(this, t, first, second);
      } else {
        PlayTurn(t, first, second);
      }
      Activate();
    }

    /** executeFunction's last line: the inactivity timer back at its start. */
    method Activate()
      requires Valid()
      modifies this`inactiveTimer
      ensures Valid() && State() == Active(old(State()))
    {
      inactiveTimer := InactiveFrames;
    }

    /** The play half of GameManager.executeFunction: the input played, then, when the AI was playing, a new game into the menu. */
    method PlayTurn(t: InputType, first: PieceType, second: PieceType)
      requires Valid() && !inMenu
      modifies this`inactiveTimer, this`highScores, this`displayedScores
      modifies this`startLevel, this`jeff, this`alwaysIntense, this`madeTop10, this`madeTop2
      modifies this`score, this`level, this`grid, this`startDelay, this`intenseMode, this`oldName
      modifies this`oldStartLevel, this`inMenu
      modifies grid.current`x, grid.current`y, grid.current`locked, grid.current`orientation, grid.current.relPos
      modifies grid.blocks, grid`linesToClear, grid`nextPieceTimer
      modifies input.inputs, input.triggers, input.timers, input.delayTimer, input.startInputTimer
      ensures Valid() && State() == PlayedTurn(old(State()), t, grid, first, second)
      ensures grid != old(grid) ==> fresh(grid)
    {
      ghost var f := State();
      PlayInput(t, first, second);
      if inactiveTimer == 0 {
        RestartAfterPlay(f, t, first, second);
      }
    }

    /** The end of the play branch when the AI was playing: the restart into the menu. */
    method RestartAfterPlay(ghost f: GameState, t: InputType, first: PieceType, second: PieceType)
      requires Valid() && StateOk(f) && State() == Played(f, t, grid, first, second) && inactiveTimer == 0
      modifies this`inactiveTimer, this`highScores, this`displayedScores
      modifies this`startLevel, this`jeff, this`alwaysIntense, this`madeTop10, this`madeTop2
      modifies this`score, this`level, this`grid, this`startDelay, this`intenseMode, this`oldName
      modifies this`oldStartLevel, this`inMenu
      ensures Valid() && fresh(grid) && State() == PlayedTurn(f, t, grid, first, second)
    {
      ghost var g0 := grid;
      Restart(first, second);
      RestartForgetsGrid(f, t, g0, grid, first, second);
    }

    /** The AI's game abandoned: a new game, with the menu open on it. */
    method Restart(first: PieceType, second: PieceType)
      requires Valid()
      modifies this`inactiveTimer, this`highScores, this`displayedScores
      modifies this`startLevel, this`jeff, this`alwaysIntense, this`madeTop10, this`madeTop2
      modifies this`score, this`level, this`grid, this`startDelay, this`intenseMode, this`oldName
      modifies this`oldStartLevel, this`inMenu
      ensures Valid() && fresh(grid) && State() == Restarted(old(State()), grid, first, second)
    {
      Reset(first, second);
      Reopen();
    }

    /** The end of the AI's restart: the start level and name remembered, the menu open. */
    method Reopen()
      requires Valid()
      modifies this`oldStartLevel, this`oldName, this`inMenu
      ensures Valid()
      ensures Snapshot() == old(Snapshot()).(oldStartLevel := startLevel, oldName := name, inMenu := true)
    {
      oldStartLevel := startLevel;
      oldName := name;
      inMenu := true;
    }
  }
}
