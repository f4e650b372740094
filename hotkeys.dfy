/**
 * The global-hotkey shim of scripts/gui_downloader.py (`HotkeyManager`).
 *
 * A combo such as "ctrl+shift+space" is bound either natively, through
 * Win32's `RegisterHotKey` under a freshly numbered id whose callback the
 * listener thread looks up, or, when that path is unavailable or fails,
 * through the `keyboard` library's hook table. The pure functions below give
 * the meaning of one `register` or `unregister_all` call on the manager's
 * state; the class `HotkeyManager` holds that state in the source's fields
 * and is proved to follow them.
 */
module Hotkeys {
  import opened Wrappers
  import opened Text

  // win32con's modifier flags for RegisterHotKey.
  const MOD_ALT: bv32 := 0x0001
  const MOD_CONTROL: bv32 := 0x0002
  const MOD_SHIFT: bv32 := 0x0004
  const MOD_WIN: bv32 := 0x0008

  predicate IsModifier(token: string) {
    token == "ctrl" || token == "alt" || token == "shift" || token == "win"
  }

  /** The flag one token adds to the mask: nothing for a base-key token. */
  function ModifierBit(token: string): bv32 {
    if token == "ctrl" then MOD_CONTROL
    else if token == "alt" then MOD_ALT
    else if token == "shift" then MOD_SHIFT
    else if token == "win" then MOD_WIN
    else 0
  }

  /** The tokens of a combo, `combo.lower().split('+')`. */
  function Tokens(combo: string): seq<string> {
    Split(Lower(combo), '+')
  }

  /**
   * The modifier mask as the design states it: the flag of each modifier
   * that occurs among the tokens, wherever and however often it occurs.
   */
  function ModsOf(tokens: seq<string>): bv32 {
    (if "ctrl" in tokens then MOD_CONTROL else 0)
    | (if "alt" in tokens then MOD_ALT else 0)
    | (if "shift" in tokens then MOD_SHIFT else 0)
    | (if "win" in tokens then MOD_WIN else 0)
  }

  /** The mask as `_parse_win`'s loop builds it, one `mods |= flag` per token. */
  function FoldMods(tokens: seq<string>): bv32 {
    if tokens == [] then 0
    else FoldMods(tokens[..|tokens| - 1]) | ModifierBit(tokens[|tokens| - 1])
  }

  /** The loop's mask is the set-based one. */
  lemma {:induction false} FoldModsIsModsOf(tokens: seq<string>)
    ensures FoldMods(tokens) == ModsOf(tokens)
  {
    if tokens != [] {
      var init, last := tokens[..|tokens| - 1], tokens[|tokens| - 1];
      assert tokens == init + [last];
      FoldModsIsModsOf(init);
      ModsOfSnoc(init, last);
    }
  }

  /** One more token adds its own flag to the set-based mask. */
  lemma ModsOfSnoc(init: seq<string>, last: string)
    ensures ModsOf(init + [last]) == ModsOf(init) | ModifierBit(last)
  {
    var tokens := init + [last];
    assert "ctrl" in tokens <==> "ctrl" in init || last == "ctrl";
    assert "alt" in tokens <==> "alt" in init || last == "alt";
    assert "shift" in tokens <==> "shift" in init || last == "shift";
    assert "win" in tokens <==> "win" in init || last == "win";
  }

  /** Each flag is set in the mask exactly when its modifier token occurs. */
  lemma ModsOfExact(tokens: seq<string>)
    ensures ModsOf(tokens) & MOD_CONTROL != 0 <==> "ctrl" in tokens
    ensures ModsOf(tokens) & MOD_ALT != 0 <==> "alt" in tokens
    ensures ModsOf(tokens) & MOD_SHIFT != 0 <==> "shift" in tokens
    ensures ModsOf(tokens) & MOD_WIN != 0 <==> "win" in tokens
    ensures ModsOf(tokens) & !(MOD_CONTROL | MOD_ALT | MOD_SHIFT | MOD_WIN) == 0
  {
  }

  /** The mask depends only on which tokens occur, not on order or repetition. */
  lemma ModsOfOrderFree(a: seq<string>, b: seq<string>)
    requires forall t :: t in a <==> t in b
    ensures ModsOf(a) == ModsOf(b)
  {
  }

  /**
   * The position of the base key: the last token that is not a modifier,
   * or nothing when every token is a modifier.
   */
  function LastKeyIndex(tokens: seq<string>): (k: Option<nat>)
    ensures k.Some? ==>
      && k.value < |tokens|
      && !IsModifier(tokens[k.value])
      && forall j :: k.value < j < |tokens| ==> IsModifier(tokens[j])
    ensures k.None? ==> forall j :: 0 <= j < |tokens| ==> IsModifier(tokens[j])
  {
    if tokens == [] then None
    else if IsModifier(tokens[|tokens| - 1]) then LastKeyIndex(tokens[..|tokens| - 1])
    else Some(|tokens| - 1)
  }

  /** The base-key token itself, as `_parse_win`'s `key` variable ends up. */
  function LastKey(tokens: seq<string>): Option<string> {
    match LastKeyIndex(tokens)
    case None => None
    case Some(i) => Some(tokens[i])
  }

  /** One more token: a modifier leaves the key alone, any other token becomes the key. */
  lemma LastKeySnoc(tokens: seq<string>, t: string)
    ensures LastKey(tokens + [t]) == if IsModifier(t) then LastKey(tokens) else Some(t)
  {
    assert (tokens + [t])[..|tokens|] == tokens;
  }

  /** One more token ORs its flag into the mask. */
  lemma FoldModsSnoc(tokens: seq<string>, t: string)
    ensures FoldMods(tokens + [t]) == FoldMods(tokens) | ModifierBit(t)
  {
    assert (tokens + [t])[..|tokens|] == tokens;
  }

  /** One pass of `_parse_win`'s loop body: a modifier ORs in its flag, any other token becomes the key. */
  method ScanToken(mods: bv32, key: Option<string>, part: string) returns (mods': bv32, key': Option<string>)
    ensures mods' == mods | ModifierBit(part)
    ensures key' == if IsModifier(part) then key else Some(part)
  {
    var flag: bv32 := 0;
    key' := key;
    if part == "ctrl" {
      flag := MOD_CONTROL;
    } else if part == "alt" {
      flag := MOD_ALT;
    } else if part == "shift" {
      flag := MOD_SHIFT;
    } else if part == "win" {
      flag := MOD_WIN;
    } else {
      key' := Some(part);
    }
    mods' := mods | flag;
  }

  /** The loop of `_parse_win` over the tokens: OR in each modifier's flag, remember the last other token. */
  method ScanTokens(tokens: seq<string>) returns (mods: bv32, key: Option<string>)
    ensures mods == FoldMods(tokens) && key == LastKey(tokens)
  {
    mods := 0;
    key := None;
    var i := 0;
    while i < |tokens|
      invariant 0 <= i <= |tokens|
      invariant mods == FoldMods(tokens[..i])
      invariant key == LastKey(tokens[..i])
    {
      var part := tokens[i];
      assert tokens[..i + 1] == tokens[..i] + [part];
      FoldModsSnoc(tokens[..i], part);
      LastKeySnoc(tokens[..i], part);
      mods, key := ScanToken(mods, key, part);
      i := i + 1;
    }
    assert tokens[..i] == tokens;
  }

  /**
   * The virtual-key code of a base-key token: win32con's `VK_<KEY>` when it
   * has one, otherwise the code of the upper-cased character for a
   * one-character key, otherwise nothing.
   */
  function ResolveKey(key: string, vkNames: map<string, int>): (vk: Option<int>)
    ensures vk.Some? <==> ("VK_" + Upper(key)) in vkNames || |key| == 1
    ensures "VK_" + Upper(key) in vkNames ==> vk == Some(vkNames["VK_" + Upper(key)])
    ensures "VK_" + Upper(key) !in vkNames && |key| == 1 ==> vk == Some(UpperChar(key[0]) as int)
  {
    var name := "VK_" + Upper(key);
    if name in vkNames then Some(vkNames[name])
    else if |key| == 1 then Some(Upper(key)[0] as int)
    else None
  }

  datatype Parsed = Parsed(mods: bv32, vk: int)

  /**
   * The combo's meaning once tokenised: the base key is the last token that
   * is not a modifier; it must resolve to a key code; the mask holds the
   * modifiers present anywhere.
   */
  function ParseTokens(tokens: seq<string>, vkNames: map<string, int>): (p: Option<Parsed>)
    ensures p.Some? <==>
      LastKeyIndex(tokens).Some? && ResolveKey(tokens[LastKeyIndex(tokens).value], vkNames).Some?
    ensures p.Some? ==>
      p.value == Parsed(ModsOf(tokens), ResolveKey(tokens[LastKeyIndex(tokens).value], vkNames).value)
  {
    match LastKey(tokens)
    case None => None
    case Some(key) =>
      match ResolveKey(key, vkNames)
      case None => None
      case Some(vk) => Some(Parsed(ModsOf(tokens), vk))
  }

  /** The meaning of the tokens in the terms `_parse_win`'s loop computes: its mask and its last key. */
  lemma ParseTokensByLoop(tokens: seq<string>, vkNames: map<string, int>)
    ensures ParseTokens(tokens, vkNames) ==
      match LastKey(tokens)
      case None => None
      case Some(key) =>
        match ResolveKey(key, vkNames)
        case None => None
        case Some(vk) => Some(Parsed(FoldMods(tokens), vk))
  {
    FoldModsIsModsOf(tokens);
  }

  /**
   * `_parse_win`: a combo parses exactly when the Win32 modules are there and
   * its last non-modifier token resolves to a key code; the result then holds
   * the modifiers present anywhere in the combo and that key code.
   */
  function ParseCombo(combo: string, win32: bool, vkNames: map<string, int>): (p: Option<Parsed>)
    ensures p.Some? <==>
      && win32
      && LastKeyIndex(Tokens(combo)).Some?
      && ResolveKey(Tokens(combo)[LastKeyIndex(Tokens(combo)).value], vkNames).Some?
    ensures p.Some? ==> p.value.mods == ModsOf(Tokens(combo))
    ensures p.Some? ==>
      p.value.vk == ResolveKey(Tokens(combo)[LastKeyIndex(Tokens(combo)).value], vkNames).value
  {
    if !win32 then None else ParseTokens(Tokens(combo), vkNames)
  }

  /** Tokens are matched after lower-casing, so the case of the combo is irrelevant. */
  lemma ParseComboIgnoresCase(combo: string, win32: bool, vkNames: map<string, int>)
    ensures ParseCombo(Lower(combo), win32, vkNames) == ParseCombo(combo, win32, vkNames)
  {
    LowerIdempotent(combo);
  }

  /** A combo made only of modifiers is unparseable. */
  lemma ParseComboNeedsBaseKey(combo: string, win32: bool, vkNames: map<string, int>)
    requires forall j :: 0 <= j < |Tokens(combo)| ==> IsModifier(Tokens(combo)[j])
    ensures ParseCombo(combo, win32, vkNames) == None
  {
  }

  /**
   * The empty combo is one empty token; it is taken as the base key, and
   * unless win32con had a bare `VK_` name it resolves to nothing.
   */
  lemma ParseComboEmpty(win32: bool, vkNames: map<string, int>)
    requires "VK_" !in vkNames
    ensures ParseCombo("", win32, vkNames) == None
  {
    assert Tokens("") == [""];
    assert LastKeyIndex([""]) == Some(0);
    assert "VK_" + Upper("") == "VK_";
  }

  /** The text before the first `+` becomes the first token, lower-cased. */
  lemma TokensAtPlus(a: string, b: string)
    requires '+' !in a
    ensures Tokens(a + "+" + b) == [Lower(a)] + Tokens(b)
  {
    LowerConcat(a + "+", b);
    LowerConcat(a, "+");
    assert Lower("+") == ['+'];
    LowerKeepsSepFree(a, '+');
    SplitAtSep(Lower(a), Lower(b), '+');
  }

  /** A combo without `+` is a single token. */
  lemma TokensNoPlus(a: string)
    requires '+' !in a
    ensures Tokens(a) == [Lower(a)]
  {
    LowerKeepsSepFree(a, '+');
    SplitNoSep(Lower(a), '+');
  }

  /** What `RegisterHotKey` does when asked: a truthy return, a falsy one, or an exception. */
  datatype NativeResult = Accepted | Refused | Raised

  /**
   * The environment a manager runs in: whether the native path exists
   * (`os.name == 'nt'` and the Win32 modules imported), win32con's `VK_`
   * names, `RegisterHotKey` as an oracle over the id, mask and key, and
   * whether `keyboard.add_hotkey` accepts a combo (it raises otherwise).
   */
  datatype Platform = Platform(
    native: bool,
    vkNames: map<string, int>,
    registerHotKey: (nat, bv32, int) -> NativeResult,
    hookAccepts: string -> bool)

  /** One entry of the `keyboard` hook table (suppressing, firing on release). */
  datatype Hook<C> = Hook(combo: string, callback: C)

  /**
   * The manager's state: `ids`, `_counter`, whether `_loop_thread` has been
   * started, and the hook table.
   */
  datatype Registry<C> = Registry(ids: map<nat, C>, counter: nat, listening: bool, hooks: seq<Hook<C>>)

  /** How one `register` call ended: bound natively under an id, hooked, or raised by the hook layer. */
  datatype Binding = Native(id: nat) | Hooked | HookRaised

  /** A fresh manager: no ids, counter 1, no listener, no hooks. */
  function Initial<C>(): (r: Registry<C>) {
    Registry(map[], 1, false, [])
  }

  /**
   * The manager's invariant: every id in use is below the counter and at
   * least 1, a native binding implies a started listener, and without the
   * native path nothing native ever happened.
   */
  ghost predicate Wf<C>(r: Registry<C>, p: Platform) {
    && r.counter >= 1
    && (forall id :: id in r.ids ==> 1 <= id < r.counter)
    && (r.ids != map[] ==> r.listening)
    && (!p.native ==> r.ids == map[] && !r.listening && r.counter == 1)
  }

  lemma InitialWf<C>(p: Platform)
    ensures Wf(Initial<C>(), p)
  {
  }

  /** `keyboard.add_hotkey(combo, callback, suppress=True, trigger_on_release=True)`. */
  function HookFallback<C>(r: Registry<C>, p: Platform, combo: string, cb: C): (Registry<C>, Binding) {
    if p.hookAccepts(combo) then (r.(hooks := r.hooks + [Hook(combo, cb)]), Hooked)
    else (r, HookRaised)
  }

  /** One `register(combo, callback)` call on the state `r`. */
  function RegisterStep<C>(r: Registry<C>, p: Platform, combo: string, cb: C): (Registry<C>, Binding) {
    if !p.native then HookFallback(r, p, combo, cb)
    else
      match ParseCombo(combo, true, p.vkNames)
      case None => HookFallback(r, p, combo, cb)
      case Some(parsed) =>
        var id := r.counter;
        var r' := r.(counter := r.counter + 1);
        if p.registerHotKey(id, parsed.mods, parsed.vk) == Accepted then
          (r'.(ids := r'.ids[id := cb], listening := true), Native(id))
        else HookFallback(r', p, combo, cb)
  }

  /** `unregister_all()`: the id table is emptied on the native path, the hook table always. */
  function UnregisterAllStep<C>(r: Registry<C>, p: Platform): Registry<C> {
    Registry(if p.native then map[] else r.ids, r.counter, r.listening, [])
  }

  /** The listener's `self.ids.get(hot_id)`. */
  function LookupId<C>(r: Registry<C>, id: nat): (cb: Option<C>)
    ensures cb.Some? <==> id in r.ids
    ensures cb.Some? ==> cb.value == r.ids[id]
  {
    if id in r.ids then Some(r.ids[id]) else None
  }

  /** Whether the native attempt of a register call succeeds. */
  ghost predicate NativeSucceeds<C>(r: Registry<C>, p: Platform, combo: string) {
    && p.native
    && var parsed := ParseCombo(combo, true, p.vkNames);
    && parsed.Some?
    && p.registerHotKey(r.counter, parsed.value.mods, parsed.value.vk) == Accepted
  }

  /** `register` keeps the invariant. */
  lemma RegisterKeepsWf<C>(r: Registry<C>, p: Platform, combo: string, cb: C)
    requires Wf(r, p)
    ensures Wf(RegisterStep(r, p, combo, cb).0, p)
  {
  }

  /**
   * A call binds natively exactly when the native path exists, the combo
   * parses and `RegisterHotKey` accepts it. A native binding adds one table
   * entry under the old counter value, which was free, and leaves the hooks
   * alone; every other outcome leaves the id table alone, and adds the hook
   * exactly when the hook layer accepts the combo. No call does both.
   */
  lemma RegisterOutcome<C>(r: Registry<C>, p: Platform, combo: string, cb: C)
    requires Wf(r, p)
    ensures var (r', b) := RegisterStep(r, p, combo, cb);
      && (b.Native? <==> NativeSucceeds(r, p, combo))
      && (b.Native? ==>
            b.id == r.counter && b.id !in r.ids && b.id >= 1
            && r'.ids == r.ids[b.id := cb] && |r'.ids| == |r.ids| + 1
            && r'.hooks == r.hooks && r'.listening)
      && (!b.Native? ==> r'.ids == r.ids && r'.listening == r.listening)
      && (b.Hooked? <==> !NativeSucceeds(r, p, combo) && p.hookAccepts(combo))
      && (b.Hooked? ==> r'.hooks == r.hooks + [Hook(combo, cb)])
      && (b.HookRaised? ==> r'.hooks == r.hooks)
  {
    var (r', b) := RegisterStep(r, p, combo, cb);
    if b.Native? {
      assert r.counter !in r.ids;
      assert r'.ids.Keys == r.ids.Keys + {b.id};
    }
  }

  /**
   * The counter advances on every call that reaches `RegisterHotKey`, whether
   * or not the registration then succeeds, and on no other call; the listener
   * is started by the first native success and stays started.
   */
  lemma RegisterCounter<C>(r: Registry<C>, p: Platform, combo: string, cb: C)
    ensures var (r', b) := RegisterStep(r, p, combo, cb);
      && r'.counter == r.counter + (if p.native && ParseCombo(combo, true, p.vkNames).Some? then 1 else 0)
      && r'.listening == (r.listening || b.Native?)
  {
  }

  /** Two native bindings in a row get distinct non-zero ids and both stay bound. */
  lemma TwoNativeIdsDistinct<C>(r: Registry<C>, p: Platform, c1: string, cb1: C, c2: string, cb2: C)
    requires Wf(r, p)
    ensures var (r1, b1) := RegisterStep(r, p, c1, cb1);
      var (r2, b2) := RegisterStep(r1, p, c2, cb2);
      b1.Native? && b2.Native? ==>
        b1.id != b2.id && b1.id != 0 && b2.id != 0
        && LookupId(r2, b1.id) == Some(cb1) && LookupId(r2, b2.id) == Some(cb2)
  {
    var (r1, b1) := RegisterStep(r, p, c1, cb1);
    RegisterKeepsWf(r, p, c1, cb1);
    RegisterOutcome(r, p, c1, cb1);
    RegisterOutcome(r1, p, c2, cb2);
  }

  /**
   * After `unregister_all` both tables are empty, while the counter and the
   * listener are as they were: later ids still never repeat earlier ones.
   */
  lemma UnregisterAllClears<C>(r: Registry<C>, p: Platform)
    requires Wf(r, p)
    ensures var r' := UnregisterAllStep(r, p);
      && r'.ids == map[] && r'.hooks == []
      && r'.counter == r.counter && r'.listening == r.listening
      && Wf(r', p)
      && forall id :: LookupId(r', id).None?
  {
  }

  /** `unregister_all` is idempotent. */
  lemma UnregisterAllIdempotent<C>(r: Registry<C>, p: Platform)
    ensures UnregisterAllStep(UnregisterAllStep(r, p), p) == UnregisterAllStep(r, p)
  {
  }

  /** `register` followed by `unregister_all` leaves no binding of any kind. */
  lemma RegisterThenUnregister<C>(r: Registry<C>, p: Platform, combo: string, cb: C)
    requires Wf(r, p)
    ensures var r' := UnregisterAllStep(RegisterStep(r, p, combo, cb).0, p);
      r'.ids == map[] && r'.hooks == []
  {
    RegisterKeepsWf(r, p, combo, cb);
  }

  /** A few of win32con's `VK_` names, for the worked examples. */
  const SampleVkNames: map<string, int> :=
    map["VK_SPACE" := 0x20, "VK_RETURN" := 0x0D, "VK_ESCAPE" := 0x1B, "VK_F1" := 0x70]

  /** The download hotkey's default combo: Ctrl|Shift and the space key. */
  lemma ParseExampleCtrlShiftSpace()
    ensures ParseTokens(["ctrl", "shift", "space"], SampleVkNames) == Some(Parsed(MOD_CONTROL | MOD_SHIFT, 0x20))
  {
    var tokens: seq<string> := ["ctrl", "shift", "space"];
    assert LastKeyIndex(tokens) == Some(2) by {
      assert !IsModifier(tokens[2]);
    }
    assert "VK_" + Upper("space") == "VK_SPACE";
  }

  /** The base key need not come last, and modifiers count wherever they stand. */
  lemma ParseExampleKeyInMiddle()
    ensures ParseTokens(["shift", "a", "ctrl"], SampleVkNames) == Some(Parsed(MOD_CONTROL | MOD_SHIFT, 65))
  {
    var tokens: seq<string> := ["shift", "a", "ctrl"];
    assert LastKeyIndex(tokens) == Some(1) by {
      assert !IsModifier(tokens[1]) && IsModifier(tokens[2]);
    }
    assert "VK_" + Upper("a") == "VK_A";
  }

  /** An unknown multi-letter key does not resolve. */
  lemma ParseExampleUnknownKey()
    ensures ParseTokens(["ctrl", "nokey"], SampleVkNames) == None
  {
    var tokens: seq<string> := ["ctrl", "nokey"];
    assert LastKeyIndex(tokens) == Some(1) by {
      assert !IsModifier(tokens[1]);
    }
    assert "VK_" + Upper("nokey") == "VK_NOKEY";
  }

  /** A whole combo, from text to mask and key code. */
  lemma ParseExampleAltA()
    ensures ParseCombo("Alt+A", true, SampleVkNames) == Some(Parsed(MOD_ALT, 65))
  {
    TokensAltA();
    var tokens: seq<string> := ["alt", "a"];
    assert LastKeyIndex(tokens) == Some(1) by {
      assert !IsModifier(tokens[1]);
    }
    assert "VK_" + Upper("a") == "VK_A";
  }

  /** "Alt+A" splits into the tokens "alt" and "a". */
  lemma TokensAltA()
    ensures Tokens("Alt+A") == ["alt", "a"]
  {
    assert "Alt+A" == "Alt" + "+" + "A";
    TokensAtPlus("Alt", "A");
    TokensNoPlus("A");
    assert Lower("Alt") == "alt" && Lower("A") == "a";
  }

  /**
   * The manager object. Its fields are the source's: `ids`, `_counter`, the
   * listener thread (only whether it was started), and the `keyboard`
   * library's hook table.
   */
  class HotkeyManager<C> {
    const platform: Platform
    var ids: map<nat, C>
    var counter: nat
    var listening: bool
    var hooks: seq<Hook<C>>

    function State(): Registry<C>
      reads this
    {
      Registry(ids, counter, listening, hooks)
    }

    ghost predicate Valid()
      reads this
    {
      Wf(State(), platform)
    }

    constructor (platform: Platform)
      ensures this.platform == platform
      ensures State() == Initial() && Valid()
    {
      this.platform := platform;
      ids := map[];
      counter := 1;
      listening := false;
      hooks := [];
    }

    /** `_parse_win`: the token loop accumulating `mods` and `key`. */
    method ParseWin(combo: string) returns (parsed: Option<Parsed>)
      ensures parsed == ParseCombo(combo, platform.native, platform.vkNames)
    {
      if !platform.native {
        return None;
      }
      var tokens := Tokens(combo);
      var mods, key := ScanTokens(tokens);
      ParseTokensByLoop(tokens, platform.vkNames);
      if key.None? {
        return None;
      }
      var name := "VK_" + Upper(key.value);
      if name in platform.vkNames {
        parsed := Some(Parsed(mods, platform.vkNames[name]));
      } else if |key.value| == 1 {
        parsed := Some(Parsed(mods, Upper(key.value)[0] as int));
      } else {
        parsed := None;
      }
    }

    /** `register(combo, callback)`. */
    method Register(combo: string, callback: C) returns (binding: Binding)
      requires Valid()
      modifies this
      ensures Valid()
      ensures (State(), binding) == RegisterStep(old(State()), platform, combo, callback)
    {
      RegisterKeepsWf(State(), platform, combo, callback);
      if platform.native {
        var parsed := ParseWin(combo);
        if parsed.Some? {
          var id := counter;
          counter := counter + 1;
          var answer := platform.registerHotKey(id, parsed.value.mods, parsed.value.vk);
          if answer == Accepted {
            ids := ids[id := callback];
            if !listening {
              listening := true;
            }
            return Native(id);
          }
          // A falsy answer, or an exception that is logged: try the hook.
        }
      }
      if platform.hookAccepts(combo) {
        hooks := hooks + [Hook(combo, callback)];
        binding := Hooked;
      } else {
        binding := HookRaised;
      }
    }

    /**
     * `unregister_all()`: on the native path every id in the table is handed
     * to `UnregisterHotKey` (failures ignored) and the table is cleared; the
     * hook table is cleared in any case. `released` is the set of ids handed
     * back to the system.
     */
    method UnregisterAll() returns (released: set<nat>)
      requires Valid()
      modifies this
      ensures Valid()
      ensures State() == UnregisterAllStep(old(State()), platform)
      ensures released == if platform.native then old(ids).Keys else {}
    {
      released := {};
      if platform.native {
        var pending := ids.Keys;
        while pending != {}
          invariant pending + released == old(ids).Keys && pending !! released
          invariant State() == old(State())
          decreases pending
        {
          var id :| id in pending;
          pending := pending - {id};
          released := released + {id};
        }
        ids := map[];
      }
      hooks := [];
    }

    /** The listener thread's lookup of the callback for a hotkey message's id. */
    function Lookup(id: nat): (cb: Option<C>)
      reads this
      ensures cb == LookupId(State(), id)
    {
      if id in ids then Some(ids[id]) else None
    }
  }
}
