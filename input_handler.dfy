/**
 * Turning terminal events into the dashboard's actions, view mode by view
 * mode, and keystrokes into the bytes an embedded terminal receives: control
 * bytes, xterm-style escape sequences, and the UTF-8 encoding of a typed
 * character (RFC 3629, section 3).
 */
module InputHandler {
  import opened Wrappers
  import opened Text
  import Utf8
  import App

  /** A key, as the terminal library reports it; `OtherKey` is any key the
      dashboard gives no meaning to. */
  datatype KeyCode = Char(c: char) | Enter | Backspace | Tab | Up | Down | Left | Right
                   | Home | End | PageUp | PageDown | Delete | Insert | F(n: byte) | Esc | OtherKey

  datatype Modifiers = Modifiers(control: bool, alt: bool, shift: bool)

  datatype KeyEvent = KeyEvent(code: KeyCode, modifiers: Modifiers)

  datatype MouseKind = WheelUp | WheelDown | OtherMouse

  datatype Event = KeyPress(key: KeyEvent) | Mouse(kind: MouseKind) | OtherEvent

  /** What the dashboard does in response to an event; `NoAction` is Rust's `Action::None`. */
  datatype Action =
    | Quit | MoveUp | MoveDown | MoveToTop | MoveToBottom | Select | Back | ShowDetail | ShowHelp
    | ToggleFilter | FilterInput(c: char) | FilterBackspace | FilterSubmit | CycleSort
    | AttachSession | AttachByIndex(index: nat) | ToggleHarpoon | Refresh | LaunchNew
    | TerminalInput(bytes: seq<byte>) | Detach | TerminalHarpoon | CycleNextSession | CyclePrevSession
    | CommandInput(c: char) | CommandBackspace | CommandSubmit | CommandCancel
    | ScrollUp(lines: nat) | ScrollDown(lines: nat) | ConfirmQuit | CancelQuit | NoAction

  const EscByte: byte := 0x1B

  predicate IsAscii(s: string) {
    forall i :: 0 <= i < |s| ==> s[i] as int < 0x80
  }

  /** The bytes of an ASCII string. */
  function AsciiBytes(s: string): (r: seq<byte>)
    requires IsAscii(s)
    ensures |r| == |s| && forall i :: 0 <= i < |s| ==> r[i] == s[i] as int
  {
    seq(|s|, i requires 0 <= i < |s| => s[i] as int)
  }

  predicate InTerminal(mode: App.ViewMode) {
    mode.Terminal? || mode.TerminalHarpoon?
  }

  /** Only a key pressed in an attached terminal is passed to it, only an
      attached terminal scrolls, and nothing quits from inside one. */
  function HandleEvent(event: Event, mode: App.ViewMode): (r: Action)
    ensures r.TerminalInput? ==> event.KeyPress? && mode.Terminal?
    ensures (r.ScrollUp? || r.ScrollDown?) ==> InTerminal(mode)
    ensures r == Quit ==> !InTerminal(mode)
    ensures event.OtherEvent? ==> r == NoAction
  {
    match event
    case KeyPress(key) => HandleKey(key, mode)
    case Mouse(kind) => HandleMouse(kind, mode)
    case OtherEvent => NoAction
  }

  /** The wheel scrolls a terminal by three lines and moves the cursor of a list. */
  function HandleMouse(kind: MouseKind, mode: App.ViewMode): (r: Action)
    ensures r != NoAction <==> !kind.OtherMouse? && !mode.Help? && !mode.Command? && !mode.ConfirmQuit?
    ensures kind.WheelUp? ==> r in {ScrollUp(3), MoveUp, NoAction}
    ensures kind.WheelDown? ==> r in {ScrollDown(3), MoveDown, NoAction}
    ensures (r.ScrollUp? || r.ScrollDown?) <==> InTerminal(mode) && !kind.OtherMouse?
  {
    match kind
    case WheelUp =>
      if InTerminal(mode) then ScrollUp(3)
      else if mode.List? || mode.Filter? || mode.Harpoon? || mode.Detail? then MoveUp
      else NoAction
    case WheelDown =>
      if InTerminal(mode) then ScrollDown(3)
      else if mode.List? || mode.Filter? || mode.Harpoon? || mode.Detail? then MoveDown
      else NoAction
    case OtherMouse => NoAction
  }

  predicate IsCtrlChar(key: KeyEvent, c: char) {
    key.modifiers.control && key.code == Char(c)
  }

  /** Ctrl+c quits from every mode that does not pass keys to a terminal. */
  function HandleKey(key: KeyEvent, mode: App.ViewMode): (r: Action)
    ensures !InTerminal(mode) && IsCtrlChar(key, 'c') ==> r == Quit
    ensures r == Quit ==> !InTerminal(mode)
    ensures r.TerminalInput? ==> mode.Terminal?
    ensures (r.ScrollUp? || r.ScrollDown?) ==> mode.Terminal?
    ensures r.AttachByIndex? ==> r.index < 9
  {
    if !InTerminal(mode) && IsCtrlChar(key, 'c') then Quit
    else match mode
      case Filter => FilterKey(key)
      case Harpoon => HarpoonKey(key)
      case Terminal => TerminalKey(key)
      case TerminalHarpoon => TerminalHarpoonKey(key)
      case Command => CommandKey(key)
      case ConfirmQuit => ConfirmQuitKey(key)
      case _ => NormalKey(key)
  }

  predicate IsTabDigit(c: char) { '1' <= c <= '9' }

  /** The list position a digit key picks: '1' is the first. */
  function DigitIndex(c: char): (i: nat)
    requires IsTabDigit(c)
    ensures i < 9
  {
    c as int - '1' as int
  }

  /** The keys of the list, detail and help views: each letter its own
      action, a digit the tab at that position. */
  function NormalKey(key: KeyEvent): (r: Action)
    ensures r.AttachByIndex? <==> key.code.Char? && IsTabDigit(key.code.c)
    ensures r.AttachByIndex? ==> r.index as int == key.code.c as int - '1' as int
    ensures key.code.Char? && key.code.c == 'q' ==> r == Quit
    ensures !r.FilterInput? && !r.TerminalInput? && !r.CommandInput? && !r.ScrollUp? && !r.ScrollDown?
  {
    match key.code
    case Char(c) =>
      if c == 'q' then Quit
      else if c == 'j' then MoveDown
      else if c == 'k' then MoveUp
      else if c == 'g' then MoveToTop
      else if c == 'G' then MoveToBottom
      else if c == 'd' then ShowDetail
      else if c == 'a' then AttachSession
      else if c == '?' then ShowHelp
      else if c == '/' then ToggleFilter
      else if c == 's' then CycleSort
      else if c == 'r' then Refresh
      else if c == 'n' then LaunchNew
      else if c == ' ' then ToggleHarpoon
      else if IsTabDigit(c) then AttachByIndex(DigitIndex(c))
      else NoAction
    case Down => MoveDown
    case Up => MoveUp
    case Enter => Select
    case Esc => Back
    case _ => NoAction
  }

  function HarpoonKey(key: KeyEvent): Action {
    match key.code
    case Char(c) =>
      if IsTabDigit(c) then AttachByIndex(DigitIndex(c))
      else if c == 'j' then MoveDown
      else if c == 'k' then MoveUp
      else if c == ' ' || c == 'q' then Back
      else NoAction
    case Down => MoveDown
    case Up => MoveUp
    case Enter => AttachSession
    case Esc => Back
    case _ => NoAction
  }

  function FilterKey(key: KeyEvent): Action {
    match key.code
    case Esc => Back
    case Enter => FilterSubmit
    case Backspace => FilterBackspace
    case Char(c) => FilterInput(c)
    case _ => NoAction
  }

  /** Six Ctrl chords steer the dashboard; every other key goes to the terminal. */
  function TerminalKey(key: KeyEvent): Action {
    if key.modifiers.control && key.code.Char? && key.code.c == 'd' then Detach
    else if key.modifiers.control && key.code.Char? && key.code.c == ' ' then TerminalHarpoon
    else if key.modifiers.control && key.code.Char? && key.code.c == 'n' then CycleNextSession
    else if key.modifiers.control && key.code.Char? && key.code.c == 'p' then CyclePrevSession
    else if key.modifiers.control && key.code.Char? && key.code.c == 'k' then ScrollUp(10)
    else if key.modifiers.control && key.code.Char? && key.code.c == 'j' then ScrollDown(10)
    else TerminalInput(KeyEventToBytes(key))
  }

  /** The tab picker over a terminal; the Ctrl+Space test in the last arm is
      written as in the source, where Space has already been matched. */
  function TerminalHarpoonKey(key: KeyEvent): Action {
    if IsCtrlChar(key, 'd') then Detach
    else match key.code
      case Char(c) =>
        if IsTabDigit(c) then AttachByIndex(DigitIndex(c))
        else if c == 'j' then MoveDown
        else if c == 'k' then MoveUp
        else if c == ' ' then Back
        else if IsCtrlChar(key, ' ') then Back
        else NoAction
      case Down => MoveDown
      case Up => MoveUp
      case Enter => AttachSession
      case Esc => Back
      case _ => if IsCtrlChar(key, ' ') then Back else NoAction
  }

  function ConfirmQuitKey(key: KeyEvent): Action {
    match key.code
    case Enter => ConfirmQuit
    case Esc => CancelQuit
    case Char(c) =>
      if c == 'q' || c == 'n' then CancelQuit
      else if c == 'y' then ConfirmQuit
      else NoAction
    case _ => NoAction
  }

  function CommandKey(key: KeyEvent): Action {
    match key.code
    case Esc => CommandCancel
    case Enter => CommandSubmit
    case Backspace => CommandBackspace
    case Char(c) => CommandInput(c)
    case _ => NoAction
  }

  /** Ctrl+`c`: the low byte of the character, minus 'a', plus one, modulo 256
      (Rust's `as u8`, `wrapping_sub` and `wrapping_add`). */
  function CtrlByte(c: char): byte {
    (((c as int % 256) - 'a' as int) % 256 + 1) % 256
  }

  /** The bytes of a key before the Alt prefix. */
  function BaseBytes(key: KeyEvent): (r: seq<byte>)
    ensures |r| <= 7
  {
    var shift := key.modifiers.shift;
    match key.code
    case Char(c) => if key.modifiers.control then [CtrlByte(c)] else Utf8.EncodeChar(c)
    case Enter => if shift then [EscByte] + AsciiBytes("[13;2u") else [0x0D]
    case Backspace => [0x7F]
    case Tab => if shift then [EscByte] + AsciiBytes("[Z") else [0x09]
    case Up => [EscByte] + AsciiBytes("[A")
    case Down => [EscByte] + AsciiBytes("[B")
    case Right => [EscByte] + AsciiBytes("[C")
    case Left => [EscByte] + AsciiBytes("[D")
    case Home => [EscByte] + AsciiBytes("[H")
    case End => [EscByte] + AsciiBytes("[F")
    case PageUp => [EscByte] + AsciiBytes("[5~")
    case PageDown => [EscByte] + AsciiBytes("[6~")
    case Delete => [EscByte] + AsciiBytes("[3~")
    case Insert => [EscByte] + AsciiBytes("[2~")
    case F(n) => FKeyBytes(n)
    case Esc => [EscByte]
    case OtherKey => []
  }

  /** What a key sends to the terminal: with Alt, an ESC in front of any
      non-empty sequence. */
  function KeyEventToBytes(key: KeyEvent): (r: seq<byte>)
    ensures |r| <= 8
  {
    var base := BaseBytes(key);
    if key.modifiers.alt && |base| > 0 then [EscByte] + base else base
  }

  function FKeyBytes(n: byte): (r: seq<byte>)
    ensures |r| <= 5
  {
    if n == 1 then [EscByte, 'O' as int, 'P' as int]
    else if n == 2 then [EscByte, 'O' as int, 'Q' as int]
    else if n == 3 then [EscByte, 'O' as int, 'R' as int]
    else if n == 4 then [EscByte, 'O' as int, 'S' as int]
    else if n == 5 then [EscByte, '[' as int, '1' as int, '5' as int, '~' as int]
    else if n == 6 then [EscByte, '[' as int, '1' as int, '7' as int, '~' as int]
    else if n == 7 then [EscByte, '[' as int, '1' as int, '8' as int, '~' as int]
    else if n == 8 then [EscByte, '[' as int, '1' as int, '9' as int, '~' as int]
    else if n == 9 then [EscByte, '[' as int, '2' as int, '0' as int, '~' as int]
    else if n == 10 then [EscByte, '[' as int, '2' as int, '1' as int, '~' as int]
    else if n == 11 then [EscByte, '[' as int, '2' as int, '3' as int, '~' as int]
    else if n == 12 then [EscByte, '[' as int, '2' as int, '4' as int, '~' as int]
    else []
  }

  // ----- Properties -----

  /** Ctrl+c quits in every mode except the two that feed a terminal: the
      terminal receives byte 3, and the terminal's tab picker ignores it. */
  lemma CtrlCQuits(key: KeyEvent, mode: App.ViewMode)
    requires IsCtrlChar(key, 'c')
    ensures HandleKey(key, mode) == Quit <==> !InTerminal(mode)
    ensures mode.Terminal? ==> HandleKey(key, mode) == TerminalInput(if key.modifiers.alt then [EscByte, 3] else [3])
    ensures mode.TerminalHarpoon? ==> HandleKey(key, mode) == NoAction
  {
  }

  /** A digit key '1'..'9' picks the list entry at `digit - 1` (always below 9)
      in the list, detail, help and both picker modes; filter and command
      modes take it as text, a terminal receives it, and the quit prompt
      ignores it. */
  lemma DigitKeys(key: KeyEvent, mode: App.ViewMode, c: char)
    requires key.code == Char(c) && IsTabDigit(c)
    ensures var a := HandleKey(key, mode);
      && (mode.List? || mode.Detail? || mode.Help? || mode.Harpoon? || mode.TerminalHarpoon? ==>
            a == AttachByIndex(c as int - '1' as int) && a.index < 9)
      && (mode.Filter? ==> a == FilterInput(c))
      && (mode.Command? ==> a == CommandInput(c))
      && (mode.Terminal? ==> a == TerminalInput(KeyEventToBytes(key)))
      && (mode.ConfirmQuit? ==> a == NoAction)
  {
  }

  predicate IsTerminalChord(key: KeyEvent) {
    key.modifiers.control && key.code.Char? && key.code.c in {'d', ' ', 'n', 'p', 'k', 'j'}
  }

  /** In terminal mode a key is passed to the terminal exactly when it is
      not one of the six Ctrl chords, and it is passed as its bytes. */
  lemma TerminalModePassesKeys(key: KeyEvent)
    ensures var a := HandleKey(key, App.ViewMode.Terminal);
      && (a.TerminalInput? <==> !IsTerminalChord(key))
      && (a.TerminalInput? ==> a.bytes == KeyEventToBytes(key))
      && (IsTerminalChord(key) ==> a in {Detach, TerminalHarpoon, CycleNextSession, CyclePrevSession, ScrollUp(10), ScrollDown(10)})
  {
  }

  /** Ctrl with a lower-case letter sends that letter's control byte, 1 for
      'a' through 26 for 'z'. */
  lemma CtrlLetters(c: char, alt: bool, shift: bool)
    requires 'a' <= c <= 'z'
    ensures var bs := KeyEventToBytes(KeyEvent(Char(c), Modifiers(true, false, shift)));
      bs == [c as int - 'a' as int + 1] && 1 <= bs[0] <= 26
  {
  }

  /** Without Ctrl or Alt a character sends its UTF-8 encoding, which
      decodes back to that character. */
  lemma TypedCharRoundTrip(c: char, shift: bool)
    ensures var bs := KeyEventToBytes(KeyEvent(Char(c), Modifiers(false, false, shift)));
      && 1 <= |bs| <= 4 && bs == Utf8.EncodeChar(c)
      && Utf8.Decode(bs) == Some([c])
  {
    Utf8.DecodeEncode([c]);
    assert Utf8.Encode([c]) == Utf8.EncodeChar(c) + Utf8.Encode([]);
  }

  /** Alt adds one ESC in front of what the key sends without it, and adds
      nothing to a key that sends nothing. */
  lemma AltPrefix(code: KeyCode, control: bool, shift: bool)
    ensures var plain := KeyEventToBytes(KeyEvent(code, Modifiers(control, false, shift)));
      KeyEventToBytes(KeyEvent(code, Modifiers(control, true, shift))) == if plain == [] then [] else [EscByte] + plain
  {
  }

  /** The parameter of the `ESC [ n ~` sequence of F5 to F12. */
  const FParams: seq<nat> := [15, 17, 18, 19, 20, 21, 23, 24]

  /** F1 to F4 send `ESC O` and P, Q, R or S; F5 to F12 send `ESC [`, the
      decimal parameter from `FParams`, and `~`; other function keys send
      nothing. */
  lemma FKeySequences(n: byte)
    ensures 1 <= n <= 4 ==> FKeyBytes(n) == [EscByte, 'O' as int, 'P' as int + n - 1]
    ensures 5 <= n <= 12 ==>
      (IsAscii(NatToString(FParams[n - 5])) &&
       FKeyBytes(n) == [EscByte, '[' as int] + AsciiBytes(NatToString(FParams[n - 5])) + ['~' as int])
    ensures (n == 0 || n > 12) ==> FKeyBytes(n) == []
  {
    if 5 <= n <= 12 {
      var p := FParams[n - 5];
      TwoDigits(p);
      assert FKeyBytes(n) == [EscByte, '[' as int, '0' as int + p / 10, '0' as int + p % 10, '~' as int];
    }
  }

  /** A two-digit number is written as its tens digit and its units digit. */
  lemma TwoDigits(p: nat)
    requires 10 <= p < 100
    ensures NatToString(p) == [DigitChar(p / 10), DigitChar(p % 10)]
    ensures IsAscii(NatToString(p))
    ensures AsciiBytes(NatToString(p)) == ['0' as int + p / 10, '0' as int + p % 10]
  {
    assert NatToString(p) == NatToString(p / 10) + [DigitChar(p % 10)];
    assert NatToString(p / 10) == [DigitChar(p / 10)];
  }

  /** The wheel scrolls a terminal by three lines, moves the cursor in the
      list, filter, picker and detail views, and does nothing elsewhere. */
  lemma WheelActions(kind: MouseKind, mode: App.ViewMode)
    ensures var a := HandleEvent(Mouse(kind), mode);
      && (kind.OtherMouse? ==> a == NoAction)
      && (kind.WheelUp? && InTerminal(mode) ==> a == ScrollUp(3))
      && (kind.WheelDown? && InTerminal(mode) ==> a == ScrollDown(3))
      && (!kind.OtherMouse? && (mode.Help? || mode.Command? || mode.ConfirmQuit?) ==> a == NoAction)
      && (kind.WheelUp? && !InTerminal(mode) && !(mode.Help? || mode.Command? || mode.ConfirmQuit?) ==> a == MoveUp)
      && (kind.WheelDown? && !InTerminal(mode) && !(mode.Help? || mode.Command? || mode.ConfirmQuit?) ==> a == MoveDown)
  {
  }

  /** The quit prompt: Enter and 'y' confirm, Esc, 'q' and 'n' cancel, and
      nothing else answers it (Ctrl+c still quits). */
  lemma ConfirmQuitAnswers(key: KeyEvent)
    requires !IsCtrlChar(key, 'c')
    ensures var a := HandleKey(key, App.ViewMode.ConfirmQuit);
      && (a == ConfirmQuit <==> key.code in {Enter, Char('y')})
      && (a == CancelQuit <==> key.code in {Esc, Char('q'), Char('n')})
      && (a == ConfirmQuit || a == CancelQuit || a == NoAction)
  {
  }
}
