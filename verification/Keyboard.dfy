/**
 The keyboard interrupt handler of device/keyboard.c: a byte stream of scancodes is read as key
 events, some prefixed with 0xe0, which set the modifier flags and offer characters to the queue.
 */
module Keyboard {
  import opened Options

  const ESC: char := '\U{1b}'
  const BACKSPACE: char := '\U{8}'
  const NUL: char := '\0'

  /** keymap: the character of a key without and with shift; NUL for keys that have none. */
  function Keymap(key: nat): (char, char) {
    match key
    case 0x01 => (ESC, ESC)
    case 0x02 => ('1', '!')
    case 0x03 => ('2', '@')
    case 0x04 => ('3', '#')
    case 0x05 => ('4', '$')
    case 0x06 => ('5', '%')
    case 0x07 => ('6', '^')
    case 0x08 => ('7', '&')
    case 0x09 => ('8', '*')
    case 0x0a => ('9', '(')
    case 0x0b => ('0', ')')
    case 0x0c => ('-', '_')
    case 0x0d => ('=', '+')
    case 0x0e => (BACKSPACE, BACKSPACE)
    case 0x0f => ('\t', '\t')
    case 0x10 => ('q', 'Q')
    case 0x11 => ('w', 'W')
    case 0x12 => ('e', 'E')
    case 0x13 => ('r', 'R')
    case 0x14 => ('t', 'T')
    case 0x15 => ('y', 'Y')
    case 0x16 => ('u', 'U')
    case 0x17 => ('i', 'I')
    case 0x18 => ('o', 'O')
    case 0x19 => ('p', 'P')
    case 0x1a => ('[', '{')
    case 0x1b => (']', '}')
    case 0x1c => ('\r', '\r')
    case 0x1e => ('a', 'A')
    case 0x1f => ('s', 'S')
    case 0x20 => ('d', 'D')
    case 0x21 => ('f', 'F')
    case 0x22 => ('g', 'G')
    case 0x23 => ('h', 'H')
    case 0x24 => ('j', 'J')
    case 0x25 => ('k', 'K')
    case 0x26 => ('l', 'L')
    case 0x27 => (';', ':')
    case 0x28 => ('\'', '"')
    case 0x29 => ('`', '~')
    case 0x2b => ('\\', '|')
    case 0x2c => ('z', 'Z')
    case 0x2d => ('x', 'X')
    case 0x2e => ('c', 'C')
    case 0x2f => ('v', 'V')
    case 0x30 => ('b', 'B')
    case 0x31 => ('n', 'N')
    case 0x32 => ('m', 'M')
    case 0x33 => (',', '<')
    case 0x34 => ('.', '>')
    case 0x35 => ('/', '?')
    case 0x37 => ('*', '*')
    case 0x39 => (' ', ' ')
    case _ => (NUL, NUL)
  }

  /** The keys from `key` on carry the characters of `low`, and with shift those of `high`. */
  ghost predicate Row(key: nat, low: string, high: string) {
    |low| == |high| && forall i :: 0 <= i < |low| ==> Keymap(key + i) == (low[i], high[i])
  }

  /** The layout of the letters and symbols, row by row as the keys lie on the keyboard. */
  lemma KeymapRows()
    ensures Row(0x02, "1234567890-=", "!@#$%^&*()_+")
    ensures Row(0x10, "qwertyuiop[]", "QWERTYUIOP{}")
    ensures Row(0x1e, "asdfghjkl;'`", "ASDFGHJKL:\"~")
    ensures Row(0x2b, "\\zxcvbnm,./", "|ZXCVBNM<>?")
  {
    LettersRow();
    SymbolsRow();
  }

  lemma LettersRow()
    ensures Row(0x10, "qwertyuiop[]", "QWERTYUIOP{}") && Row(0x1e, "asdfghjkl;'`", "ASDFGHJKL:\"~")
  {
  }

  lemma SymbolsRow()
    ensures Row(0x02, "1234567890-=", "!@#$%^&*()_+") && Row(0x2b, "\\zxcvbnm,./", "|ZXCVBNM<>?")
  {
  }

  /** The keys between and behind the rows. */
  lemma KeymapOthers()
    ensures Row(0x01, "\U{1b}", "\U{1b}") && Row(0x0e, "\U{8}\t", "\U{8}\t") && Row(0x1c, "\r", "\r")
    ensures Row(0x37, "*", "*") && Row(0x39, " ", " ")
    ensures forall key: nat :: key in {0, 0x1d, 0x2a, 0x36, 0x38} || key > 0x39 ==> Keymap(key) == (NUL, NUL)
  {
  }

  function KeyChar(key: nat, second: bool): char { if second then Keymap(key).1 else Keymap(key).0 }

  /** The static variables of the handler. */
  datatype Flags = Flags(ctrl: bool, shift: bool, alt: bool, caps: bool, ext: bool)

  // ----- key events

  /** A byte other than 0xe0, with or without a prefix. */
  datatype KeyEvent = KeyEvent(ext: bool, code: nat) {
    predicate IsBreak() { code >= 0x80 }
    function Key(): nat { code % 0x80 }
  }

  datatype Family = Ctrl | Shift | Alt

  /** The left and right keys of a family; right ctrl and alt have a prefix. */
  predicate In(f: Family, e: KeyEvent) {
    match f
    case Ctrl => e.Key() == 0x1d
    case Shift => !e.ext && (e.Key() == 0x2a || e.Key() == 0x36)
    case Alt => e.Key() == 0x38
  }

  predicate IsCapsPress(e: KeyEvent) { !e.ext && e.code == 0x3a }

  predicate IsLetterKey(key: nat) { 'a' <= Keymap(key).0 <= 'z' }

  /** What a key event does to the flags. */
  function OnEvent(k: Flags, e: KeyEvent): Flags {
    Flags(if In(Ctrl, e) then !e.IsBreak() else k.ctrl,
          if In(Shift, e) then !e.IsBreak() else k.shift,
          if In(Alt, e) then !e.IsBreak() else k.alt,
          k.caps != IsCapsPress(e),
          false)
  }

  /** The character that a key event offers to the queue: letters follow shift xor caps, all else shift. */
  function Offered(k: Flags, e: KeyEvent): char {
    if e.IsBreak() || e.ext then NUL
    else KeyChar(e.code, if IsLetterKey(e.code) then k.shift != k.caps else k.shift)
  }

  /** A press of a key that the handler does not know, which it reports on the screen. */
  predicate IsUnknown(e: KeyEvent) {
    !e.IsBreak() && if e.ext then e.code != 0x38 && e.code != 0x1d else !(0 < e.code < 0x3b)
  }

  /** How many of the events are such presses. */
  function UnknownKeys(es: seq<KeyEvent>): nat {
    if es == [] then 0 else UnknownKeys(es[..|es| - 1]) + if IsUnknown(es[|es| - 1]) then 1 else 0
  }

  // ----- the byte stream

  /** Whether the next byte will be read as prefixed. */
  function Pending(ext: bool, bytes: seq<nat>): bool { if bytes == [] then ext else bytes[|bytes| - 1] == 0xe0 }

  /** The key events in a byte stream. */
  function Parse(ext: bool, bytes: seq<nat>): seq<KeyEvent> {
    if bytes == [] then []
    else
      var init, b := bytes[..|bytes| - 1], bytes[|bytes| - 1];
      Parse(ext, init) + if b == 0xe0 then [] else [KeyEvent(Pending(ext, init), b)]
  }

  function Fold(k: Flags, es: seq<KeyEvent>): Flags {
    if es == [] then k else OnEvent(Fold(k, es[..|es| - 1]), es[|es| - 1])
  }

  /** The characters that the events offer, in order. */
  function Chars(k: Flags, es: seq<KeyEvent>): string {
    if es == [] then ""
    else
      var init, e := es[..|es| - 1], es[|es| - 1];
      var c := Offered(Fold(k, init), e);
      Chars(k, init) + if c == NUL then "" else [c]
  }

  // ----- the handler, byte by byte

  /** The new flags, the character offered to the queue (NUL for none), and whether "unknown key" is printed. */
  datatype Reply = Reply(k: Flags, offered: char, unknown: bool)

  /** The flags after a break code, whose make code is given. */
  function Released(k: Flags, make: nat): Flags {
    if make == 0x1d || make == 0xe01d then k.(ctrl := false)
    else if make == 0x2a || make == 0x36 then k.(shift := false)
    else if make == 0x38 || make == 0xe038 then k.(alt := false)
    else k
  }

  /** The flags after a key without a character. */
  function Pressed(k: Flags, key: nat): Flags {
    if key == 0x1d || key == 0xe01d then k.(ctrl := true)
    else if key == 0x2a || key == 0x36 then k.(shift := true)
    else if key == 0x38 || key == 0xe038 then k.(alt := true)
    else if key == 0x3a then k.(caps := !k.caps)
    else k
  }

  /** The handler on a make code. */
  function MadeReply(k: Flags, scancode: nat): Reply {
    if 0x00 < scancode < 0x3b || scancode == 0xe038 || scancode == 0xe01d then
      var key := scancode % 0x100;
      var c := KeyChar(key, Select(k, scancode));
      if c != NUL then Reply(k, c, false) else Reply(Pressed(k, key), NUL, false)
    else Reply(k, NUL, true)
  }

  /** intr_keyboard_handler() for one byte, branch by branch. */
  function Handle(k: Flags, b: nat): Reply {
    if b == 0xe0 then Reply(k.(ext := true), NUL, false)
    else
      var scancode := if k.ext then 0xe000 + b else b;
      var k0 := k.(ext := false);
      if b >= 0x80 then Reply(Released(k0, scancode - 0x80), NUL, false) else MadeReply(k0, scancode)
  }

  /** The keys that the handler lists as carrying two symbols. */
  predicate IsSymbolCode(scancode: nat) {
    scancode < 0x0e || scancode in {0x29, 0x1a, 0x1b, 0x2b, 0x27, 0x28, 0x33, 0x34, 0x35}
  }

  /** The column of keymap that the handler uses. */
  function Select(k: Flags, scancode: nat): bool {
    if IsSymbolCode(scancode) then k.shift
    else if k.shift && k.caps then false
    else k.shift || k.caps
  }

  function Feed(k: Flags, bytes: seq<nat>): Flags {
    if bytes == [] then k else Handle(Feed(k, bytes[..|bytes| - 1]), bytes[|bytes| - 1]).k
  }

  /** What the handler offers to the queue over a byte stream. */
  function Offers(k: Flags, bytes: seq<nat>): string {
    if bytes == [] then ""
    else
      var init := bytes[..|bytes| - 1];
      var c := Handle(Feed(k, init), bytes[|bytes| - 1]).offered;
      Offers(k, init) + if c == NUL then "" else [c]
  }

  /** How often the handler prints "unknown key" over a byte stream. */
  function Reports(k: Flags, bytes: seq<nat>): nat {
    if bytes == [] then 0
    else
      var init := bytes[..|bytes| - 1];
      Reports(k, init) + if Handle(Feed(k, init), bytes[|bytes| - 1]).unknown then 1 else 0
  }

  ghost predicate AreBytes(bytes: seq<nat>) { forall i :: 0 <= i < |bytes| ==> bytes[i] < 0x100 }

  // ----- the handler is a fold over key events

  /** The handler's list of symbol keys is right: letters are not on it, and other keys off it have one character only. */
  lemma SymbolListIsExact(key: nat)
    ensures IsLetterKey(key) ==> !IsSymbolCode(key)
    ensures !IsLetterKey(key) && !IsSymbolCode(key) ==> Keymap(key).0 == Keymap(key).1
  {
  }

  /** The second column of a letter key is the capital letter. */
  lemma LettersHaveCapitals(key: nat)
    requires IsLetterKey(key)
    ensures Keymap(key).1 as int == Keymap(key).0 as int - 32 && key < 0x3b
  {
  }

  /** A key has no character exactly when it is a modifier or outside the keymap. */
  lemma KeysWithoutChar(key: nat, second: bool)
    ensures KeyChar(key, second) == NUL <==> !(0 < key < 0x3b) || key in {0x1d, 0x2a, 0x36, 0x38, 0x3a}
  {
  }

  lemma HandleIsEvent(k: Flags, b: nat)
    requires b < 0x100 && b != 0xe0
    ensures var e := KeyEvent(k.ext, b); Handle(k, b) == Reply(OnEvent(k, e), Offered(k, e), IsUnknown(e))
  {
    hide Keymap, IsSymbolCode, KeyChar;
    if b < 0x80 {
      KeysWithoutChar(b, true);
      KeysWithoutChar(b, false);
      SelectIsColumn(k, b);
    }
  }

  lemma SelectIsColumn(k: Flags, b: nat)
    ensures KeyChar(b, Select(k, b)) == KeyChar(b, if IsLetterKey(b) then k.shift != k.caps else k.shift)
    ensures b in {0x1d, 0x38} ==> KeyChar(b, Select(k, 0xe000 + b)) == NUL
  {
    hide Keymap, IsSymbolCode, IsLetterKey;
    SymbolListIsExact(b);
    KeysWithoutChar(b, Select(k, 0xe000 + b));
  }

  /** For every byte stream the handler equals parsing 0xe0-prefixed key events and folding over them. */
  lemma {:induction false} HandlerIsFold(k: Flags, bytes: seq<nat>)
    requires AreBytes(bytes)
    ensures Feed(k, bytes) == Fold(k, Parse(k.ext, bytes)).(ext := Pending(k.ext, bytes))
    ensures Offers(k, bytes) == Chars(k, Parse(k.ext, bytes))
    decreases |bytes|
  {
    hide Handle, OnEvent, Offered;
    if bytes != [] {
      var init, b := bytes[..|bytes| - 1], bytes[|bytes| - 1];
      HandlerIsFold(k, init);
      var k1 := Feed(k, init);
      if b == 0xe0 {
        PrefixByte(k1);
        assert Parse(k.ext, bytes) == Parse(k.ext, init);
      } else {
        HandleIsEvent(k1, b);
        var es, e := Parse(k.ext, init), KeyEvent(k1.ext, b);
        assert Parse(k.ext, bytes) == es + [e] && (es + [e])[..|es|] == es;
        ExtIsIrrelevant(Fold(k, es), Pending(k.ext, init), e);
      }
    }
  }

  /** The handler reports exactly the presses of keys that it does not know. */
  lemma {:induction false} ReportsAreUnknownKeys(k: Flags, bytes: seq<nat>)
    requires AreBytes(bytes)
    ensures Reports(k, bytes) == UnknownKeys(Parse(k.ext, bytes))
    decreases |bytes|
  {
    hide Handle, OnEvent, Offered, IsUnknown, Fold, Chars, Feed, Offers;
    if bytes != [] {
      var init, b := bytes[..|bytes| - 1], bytes[|bytes| - 1];
      ReportsAreUnknownKeys(k, init);
      HandlerIsFold(k, init);
      PrefixByte(Feed(k, init));
      if b == 0xe0 {
        assert Parse(k.ext, bytes) == Parse(k.ext, init);
      } else {
        HandleIsEvent(Feed(k, init), b);
        LastEvent(Parse(k.ext, init), KeyEvent(Feed(k, init).ext, b));
      }
    }
  }

  lemma LastEvent(es: seq<KeyEvent>, e: KeyEvent)
    ensures UnknownKeys(es + [e]) == UnknownKeys(es) + if IsUnknown(e) then 1 else 0
  {
    assert (es + [e])[..|es + [e]| - 1] == es;
  }

  lemma PrefixByte(k: Flags)
    ensures Handle(k, 0xe0) == Reply(k.(ext := true), NUL, false)
  {
  }

  lemma ExtIsIrrelevant(k: Flags, ext: bool, e: KeyEvent)
    ensures OnEvent(k.(ext := ext), e) == OnEvent(k, e) && Offered(k.(ext := ext), e) == Offered(k, e)
    ensures !OnEvent(k, e).ext
  {
  }

  // ----- the flags after a byte stream

  /** The last event of the family was a make; `before` if there was none. */
  function Down(f: Family, before: bool, es: seq<KeyEvent>): bool {
    if es == [] then before
    else if In(f, es[|es| - 1]) then !es[|es| - 1].IsBreak()
    else Down(f, before, es[..|es| - 1])
  }

  function FlagOf(f: Family, k: Flags): bool {
    match f
    case Ctrl => k.ctrl
    case Shift => k.shift
    case Alt => k.alt
  }

  lemma {:induction false} FoldIsDown(f: Family, k: Flags, es: seq<KeyEvent>)
    ensures FlagOf(f, Fold(k, es)) == Down(f, FlagOf(f, k), es)
    decreases |es|
  {
    if es != [] { FoldIsDown(f, k, es[..|es| - 1]); }
  }

  /** shift, ctrl and alt equal the last make or break of their family. */
  lemma ModifierIsLast(f: Family, k: Flags, bytes: seq<nat>)
    requires AreBytes(bytes)
    ensures FlagOf(f, Feed(k, bytes)) == Down(f, FlagOf(f, k), Parse(k.ext, bytes))
  {
    HandlerIsFold(k, bytes);
    FoldIsDown(f, k, Parse(k.ext, bytes));
  }

  /** How many bytes are 0x3a without a prefix. */
  function CapsPresses(ext: bool, bytes: seq<nat>): nat {
    if bytes == [] then 0
    else
      var init := bytes[..|bytes| - 1];
      CapsPresses(ext, init) + if bytes[|bytes| - 1] == 0x3a && !Pending(ext, init) then 1 else 0
  }

  /** Caps lock equals the parity of the unprefixed 0x3a bytes. */
  lemma {:induction false} CapsIsParity(k: Flags, bytes: seq<nat>)
    requires AreBytes(bytes)
    ensures Feed(k, bytes).caps == (k.caps != (CapsPresses(k.ext, bytes) % 2 == 1))
    decreases |bytes|
  {
    hide Handle, Offers, Parse, Fold, Chars;
    if bytes != [] {
      var init, b := bytes[..|bytes| - 1], bytes[|bytes| - 1];
      CapsIsParity(k, init);
      HandlerIsFold(k, init);
      PrefixByte(Feed(k, init));
      if b != 0xe0 { HandleIsEvent(Feed(k, init), b); }
    }
  }

  /** A letter key offers the capital letter exactly when one of shift and caps lock is on but not both. */
  lemma LetterCase(k: Flags, key: nat)
    requires IsLetterKey(key)
    ensures var c := Handle(k.(ext := false), key).offered;
            c == if k.shift != k.caps then (Keymap(key).0 as int - 32) as char else Keymap(key).0
  {
    hide Keymap, Handle;
    LettersHaveCapitals(key);
    HandleIsEvent(k.(ext := false), key);
  }

  // ----- typing a string

  /** A key and column, below n, that carries c. */
  function FindKey(c: char, n: nat): (r: Option<(nat, bool)>)
    ensures r.Some? ==> r.value.0 < n && KeyChar(r.value.0, r.value.1) == c
    ensures r.None? ==> forall key: nat, second :: key < n ==> KeyChar(key, second) != c
  {
    if n == 0 then None
    else if KeyChar(n - 1, false) == c then Some((n - 1, false))
    else if KeyChar(n - 1, true) == c then Some((n - 1, true))
    else FindKey(c, n - 1)
  }

  ghost predicate Typable(c: char) { c != NUL && exists key: nat, second :: KeyChar(key, second) == c }

  ghost predicate AllTypable(s: string) { forall i :: 0 <= i < |s| ==> Typable(s[i]) }

  /** The scancodes that type c when caps lock is as given and no shift is held: press and release, with shift around it if needed. */
  function EncodeChar(c: char, caps: bool): seq<nat> {
    match FindKey(c, 0x3b)
    case None => []
    case Some((key, second)) =>
      if (if IsLetterKey(key) then second != caps else second) then [0x2a, key, key + 0x80, 0xaa] else [key, key + 0x80]
  }

  function Encode(s: string, caps: bool): seq<nat> {
    if s == "" then [] else Encode(s[..|s| - 1], caps) + EncodeChar(s[|s| - 1], caps)
  }

  lemma {:induction false} FeedAppend(k: Flags, a: seq<nat>, b: seq<nat>)
    ensures Feed(k, a + b) == Feed(Feed(k, a), b) && Offers(k, a + b) == Offers(k, a) + Offers(Feed(k, a), b)
    ensures Reports(k, a + b) == Reports(k, a) + Reports(Feed(k, a), b)
    decreases |b|
  {
    hide Handle;
    if b == [] {
      assert a + b == a;
    } else {
      var init := b[..|b| - 1];
      FeedAppend(k, a, init);
      assert (a + b)[..|a + b| - 1] == a + init;
    }
  }

  lemma NothingFed(k: Flags)
    ensures Feed(k, []) == k && Offers(k, []) == "" && Reports(k, []) == 0
  {
  }

  lemma FeedOne(k: Flags, b: nat)
    ensures Feed(k, [b]) == Handle(k, b).k
    ensures Offers(k, [b]) == if Handle(k, b).offered == NUL then "" else [Handle(k, b).offered]
    ensures Reports(k, [b]) == if Handle(k, b).unknown then 1 else 0
  {
    hide Handle;
    assert [b][..|[b]| - 1] == [];
  }

  lemma TypableKey(c: char)
    requires Typable(c)
    ensures FindKey(c, 0x3b).Some? && var key := FindKey(c, 0x3b).value.0;
            0 < key < 0x3b && key !in {0x1d, 0x2a, 0x36, 0x38, 0x3a}
  {
    hide Keymap, KeyChar;
    var key: nat, second :| KeyChar(key, second) == c;
    KeysWithoutChar(key, second);
    if FindKey(c, 0x3b).Some? { KeysWithoutChar(FindKey(c, 0x3b).value.0, FindKey(c, 0x3b).value.1); }
  }

  /** Pressing and releasing a key with a character. */
  lemma PressRelease(k: Flags, key: nat)
    requires !k.ext && 0 < key < 0x3b && key !in {0x1d, 0x2a, 0x36, 0x38, 0x3a}
    ensures Feed(k, [key, key + 0x80]) == k
    ensures Offers(k, [key, key + 0x80]) == [KeyChar(key, if IsLetterKey(key) then k.shift != k.caps else k.shift)]
  {
    hide Handle, Keymap, IsLetterKey, KeyChar, Feed, Offers;
    assert [key] + [key + 0x80] == [key, key + 0x80];
    FeedAppend(k, [key], [key + 0x80]);
    FeedOne(k, key);
    FeedOne(k, key + 0x80);
    HandleIsEvent(k, key);
    HandleIsEvent(k, key + 0x80);
    KeysWithoutChar(key, true);
    KeysWithoutChar(key, false);
  }

  /** A left-shift make or break. */
  lemma ShiftByte(k: Flags, down: bool)
    requires !k.ext
    ensures var b := [if down then 0x2a else 0xaa]; Feed(k, b) == k.(shift := down) && Offers(k, b) == ""
  {
    hide Handle, Keymap, IsLetterKey, KeyChar;
    var b := if down then 0x2a else 0xaa;
    FeedOne(k, b);
    HandleIsEvent(k, b);
    KeysWithoutChar(0x2a, true);
    KeysWithoutChar(0x2a, false);
  }

  lemma TypeChar(k: Flags, c: char)
    requires !k.ext && !k.shift && Typable(c)
    ensures Feed(k, EncodeChar(c, k.caps)) == k && Offers(k, EncodeChar(c, k.caps)) == [c]
  {
    hide Handle, Keymap, IsLetterKey, KeyChar, Feed, Offers, Typable, FindKey;
    TypableKey(c);
    var (key, second) := FindKey(c, 0x3b).value;
    if (if IsLetterKey(key) then second != k.caps else second) {
      var up := k.(shift := true);
      ShiftByte(k, true);
      PressRelease(up, key);
      ShiftByte(up, false);
      FeedAppend(k, [0x2a], [key, key + 0x80]);
      FeedAppend(k, [0x2a] + [key, key + 0x80], [0xaa]);
      assert [0x2a] + [key, key + 0x80] + [0xaa] == EncodeChar(c, k.caps);
      assert up.(shift := false) == k;
    } else {
      PressRelease(k, key);
    }
  }

  /** Typing any typable string, whatever the caps lock, offers exactly that string to the queue. */
  lemma {:induction false} TypingRoundTrip(k: Flags, s: string)
    requires !k.ext && !k.shift && AllTypable(s)
    ensures Offers(k, Encode(s, k.caps)) == s && Feed(k, Encode(s, k.caps)) == k
    decreases |s|
  {
    hide Typable, EncodeChar, Feed, Offers;
    NothingFed(k);
    if s != "" {
      var init, c := s[..|s| - 1], s[|s| - 1];
      TypingRoundTrip(k, init);
      TypeChar(k, c);
      FeedAppend(k, Encode(init, k.caps), EncodeChar(c, k.caps));
      assert init + [c] == s;
    }
  }

  // ----- the handler as it runs

  class Driver {
    var ctrl: bool
    var shift: bool
    var alt: bool
    var caps: bool
    var ext: bool

    ghost function View(): Flags
      reads this
    {
      Flags(ctrl, shift, alt, caps, ext)
    }

    /** A key is released: only modifiers matter. */
    method Break(make: nat)
      modifies this`ctrl, this`shift, this`alt
      ensures View() == Released(old(View()), make)
    {
      if make == 0x1d || make == 0xe01d {
        ctrl := false;
      } else if make == 0x2a || make == 0x36 {
        shift := false;
      } else if make == 0x38 || make == 0xe038 {
        alt := false;
      }
    }

    /** A modifier is pressed, or caps lock. */
    method Modify(key: nat)
      modifies this`ctrl, this`shift, this`alt, this`caps
      ensures View() == Pressed(old(View()), key)
    {
      if key == 0x1d || key == 0xe01d {
        ctrl := true;
      } else if key == 0x2a || key == 0x36 {
        shift := true;
      } else if key == 0x38 || key == 0xe038 {
        alt := true;
      } else if key == 0x3a {
        caps := !caps;
      }
    }

    /** The column of keymap for a key that the handler knows. */
    method Column(scancode: nat) returns (second: bool)
      ensures second == Select(View(), scancode)
    {
      second := false;
      if IsSymbolCode(scancode) {
        if shift { second := true; }
      } else {
        if shift && caps {
          second := false;
        } else if shift || caps {
          second := true;
        } else {
          second := false;
        }
      }
    }

    /** A key is pressed: a character to offer, a modifier, or a key that is not known. */
    method Make(scancode: nat) returns (c: char, unknown: bool)
      modifies this
      ensures Reply(View(), c, unknown) == MadeReply(old(View()), scancode)
    {
      hide Keymap, KeyChar, Select, Pressed;
      c, unknown := NUL, false;
      if (scancode > 0x00 && scancode < 0x3b) || scancode == 0xe038 || scancode == 0xe01d {
        var second := Column(scancode);
        var key := scancode % 0x100;
        var cur := KeyChar(key, second);
        if cur != NUL {
          c := cur;
          return;
        }
        Modify(key);
      } else {
        unknown := true;
      }
    }

    /**
     intr_keyboard_handler(): `code` is the byte from port 0x60, `c` the character offered to the queue,
     `unknown` a message on the screen.
     */
    method Handler(code: nat) returns (c: char, unknown: bool)
      requires code < 0x100
      modifies this
      ensures Reply(View(), c, unknown) == Handle(old(View()), code)
      ensures code != 0xe0 ==>
                var e := KeyEvent(old(ext), code);
                View() == OnEvent(old(View()), e) && c == Offered(old(View()), e) && unknown == IsUnknown(e)
    {
      hide OnEvent, Offered, IsUnknown, MadeReply, Released;
      if code != 0xe0 { HandleIsEvent(View(), code); }
      c, unknown := NUL, false;
      var scancode := code;
      if scancode == 0xe0 {
        ext := true;
        return;
      }
      if ext {
        scancode := 0xe000 + scancode;
        ext := false;
      }
      if scancode / 0x80 % 2 != 0 {
        Break(scancode - 0x80);
      } else {
        c, unknown := Make(scancode);
      }
    }
  }
}
