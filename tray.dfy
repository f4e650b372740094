/**
 * cpp/main_windows_strict.cpp: the native tray program. It keeps its files
 * beside the executable, appends the clipboard text to the same
 * `download-list.txt` as the Python script (without stripping it and
 * without a duplicate check), launches one `yt-dlp` command per non-empty
 * line on demand, and reacts to two global hotkeys and a tray menu through
 * one window procedure.
 *
 * Win32 calls that only draw or ask the user something (the tray icon's
 * image, the popup menu's placement) are left out; what the program asks
 * the shell to do is recorded, in order, as a sequence of effects.
 */
module Tray {
  import opened Wrappers
  import opened Text
  import opened ListFile
  import Strict
  import Hotkeys

  // Path layout.

  /** The size of the buffer `GetModuleDir` hands to `GetModuleFileNameW`. */
  const MAX_PATH: nat := 260

  predicate IsSeparator(c: char) {
    c == '\\' || c == '/'
  }

  /** `find_last_of(L"\\/")`: the position of the last separator in `path`, if any. */
  function LastSeparator(path: string): (k: Option<nat>)
    ensures k.Some? ==> k.value < |path| && IsSeparator(path[k.value])
    ensures k.Some? ==> forall i :: k.value < i < |path| ==> !IsSeparator(path[i])
    ensures k.None? ==> forall i :: 0 <= i < |path| ==> !IsSeparator(path[i])
  {
    if path == [] then None
    else if IsSeparator(path[|path| - 1]) then Some(|path| - 1)
    else LastSeparator(path[..|path| - 1])
  }

  /**
   * What `GetModuleFileNameW` leaves in a buffer of MAX_PATH characters: a
   * longer name is cut to the MAX_PATH - 1 characters before the closing
   * null.
   */
  function ModulePath(fileName: string): (path: string)
    ensures |path| < MAX_PATH && path <= fileName
    ensures |fileName| < MAX_PATH ==> path == fileName
  {
    if |fileName| < MAX_PATH then fileName else fileName[..MAX_PATH - 1]
  }

  /**
   * The directory part of a path: everything before its last separator
   * (`\` or `/`), or the whole path when it has none.
   */
  function DirOf(path: string): (dir: string)
    ensures dir <= path
    ensures LastSeparator(path).None? <==> dir == path
    ensures dir == path || (
      && |dir| < |path|
      && IsSeparator(path[|dir|])
      && forall i :: |dir| < i < |path| ==> !IsSeparator(path[i]))
  {
    match LastSeparator(path)
    case Some(k) => path[..k]
    case None => path
  }

  /** `GetModuleDir`: the directory of the running executable, as far as the buffer holds its name. */
  function GetModuleDir(fileName: string): string {
    DirOf(ModulePath(fileName))
  }

  function SystemDir(root: string): string { root + "\\system" }
  function DownloadList(root: string): string { SystemDir(root) + "\\download-list.txt" }
  function DownloadFolder(root: string): string { root + "\\Downloads" }
  function InfoFile(root: string): string { SystemDir(root) + "\\info.txt" }

  /** A separator-free tail does not move the last separator. */
  lemma {:induction false} LastSeparatorSkipsName(prefix: string, name: string)
    requires forall i :: 0 <= i < |name| ==> !IsSeparator(name[i])
    ensures LastSeparator(prefix + name) == LastSeparator(prefix)
  {
    if name != [] {
      var last := name[|name| - 1];
      assert (prefix + name)[..|prefix + name| - 1] == prefix + name[..|name| - 1];
      LastSeparatorSkipsName(prefix, name[..|name| - 1]);
    } else {
      assert prefix + name == prefix;
    }
  }

  /**
   * Taking the directory of `dir\name` or `dir/name` gives `dir` back, for a
   * file or folder name without separators.
   */
  lemma DirOfJoin(dir: string, sep: char, name: string)
    requires IsSeparator(sep)
    requires forall i :: 0 <= i < |name| ==> !IsSeparator(name[i])
    ensures DirOf(dir + [sep] + name) == dir
  {
    LastSeparatorSkipsName(dir + [sep], name);
    assert LastSeparator(dir + [sep]) == Some(|dir|);
    assert (dir + [sep] + name)[..|dir|] == dir;
  }

  /** The system and downloads folders sit in the program's own directory. */
  lemma FoldersInRoot(root: string)
    ensures DirOf(SystemDir(root)) == root
    ensures DirOf(DownloadFolder(root)) == root
  {
    assert SystemDir(root) == root + "\\" + "system";
    assert DownloadFolder(root) == root + "\\" + "Downloads";
    DirOfJoin(root, '\\', "system");
    DirOfJoin(root, '\\', "Downloads");
  }

  /** The list and the info file sit in the system folder. */
  lemma FilesInSystemDir(root: string)
    ensures DirOf(DownloadList(root)) == SystemDir(root)
    ensures DirOf(InfoFile(root)) == SystemDir(root)
  {
    assert DownloadList(root) == SystemDir(root) + "\\" + "download-list.txt";
    assert InfoFile(root) == SystemDir(root) + "\\" + "info.txt";
    DirOfJoin(SystemDir(root), '\\', "download-list.txt");
    DirOfJoin(SystemDir(root), '\\', "info.txt");
  }

  /**
   * For an executable `dir\exe` (or `dir/exe`) whose full name fits the
   * buffer, the program's root is `dir`.
   */
  lemma RootOfExecutable(dir: string, sep: char, exe: string)
    requires IsSeparator(sep)
    requires forall i :: 0 <= i < |exe| ==> !IsSeparator(exe[i])
    requires |dir| + 1 + |exe| < MAX_PATH
    ensures GetModuleDir(dir + [sep] + exe) == dir
  {
    DirOfJoin(dir, sep, exe);
  }

  /** A forward slash separates too: `C:/x/app.exe` has its root in `C:/x`. */
  lemma ForwardSlashRoot()
    ensures GetModuleDir("C:/x/app.exe") == "C:/x"
  {
    assert "C:/x/app.exe" == "C:/x" + ['/'] + "app.exe";
    RootOfExecutable("C:/x", '/', "app.exe");
  }

  // The list file.

  /**
   * `AddLinkFromClipboard` on the list file: `None` stands for a clipboard
   * that cannot be opened or holds no text. A non-empty text is written as
   * it is, with a line break after it.
   */
  function AppendClip(file: Option<seq<string>>, clip: Option<string>): Option<seq<string>> {
    if clip.None? || clip.value == [] then file
    else Some(Lines(file) + Written(clip.value))
  }

  /**
   * Nothing to paste leaves the file alone; otherwise the file afterwards
   * holds its old text, then the clipboard text, then a line break.
   */
  lemma AppendClipWrites(file: Option<seq<string>>, clip: Option<string>)
    ensures clip.None? || clip.value == [] ==> AppendClip(file, clip) == file
    ensures clip.Some? && clip.value != [] ==>
      && AppendClip(file, clip).Some?
      && FileText(AppendClip(file, clip).value) == FileText(Lines(file)) + clip.value + [NL]
  {
    if clip.Some? && clip.value != [] {
      WriteAppends(Lines(file), clip.value);
    }
  }

  /**
   * For a new link copied without surrounding blanks or line breaks, the
   * port and the Python script leave the same list behind.
   */
  lemma AddsAgreeOnNewLink(file: Option<seq<string>>, url: string)
    requires url != [] && Strip(url) == url
    requires url !in Urls(Lines(file))
    ensures AppendClip(file, Some(url)) == Strict.AddLink(file, url).0
  {
    StripEmptyIff(url);
  }

  /** A copied single-line link becomes the last line the port reads back. */
  lemma AppendedLinkReadLast(file: Option<seq<string>>, url: string)
    requires url != [] && NL !in url
    ensures ListLines(Lines(AppendClip(file, Some(url)))) == ListLines(Lines(file)) + [url]
  {
    WrittenSingle(url);
    var lines := Lines(file);
    assert Lines(AppendClip(file, Some(url))) == lines + [url];
    NonBlankConcat(lines, [url], Verbatim);
    NonBlankSingle(url, Verbatim);
  }

  /**
   * The port has no duplicate check: copying the same link twice lists it
   * twice, and both copies are downloaded.
   */
  lemma CopiedTwiceListedTwice(file: Option<seq<string>>, url: string)
    requires url != [] && NL !in url
    ensures ListLines(Lines(AppendClip(AppendClip(file, Some(url)), Some(url))))
         == ListLines(Lines(file)) + [url, url]
  {
    AppendedLinkReadLast(file, url);
    AppendedLinkReadLast(AppendClip(file, Some(url)), url);
    assert ListLines(Lines(file)) + [url] + [url] == ListLines(Lines(file)) + [url, url];
  }

  // Launching downloads.

  /**
   * What the shell is asked to do, in order. `Launch(url)` records one
   * `RunDownload(url)` call: cmd.exe started with the parameters
   * `CommandLine(url)`, which is one `yt-dlp` command for the whole URL
   * only when cmd.exe finds no operator in it (see
   * `CommandLineExposesOperators`).
   */
  datatype Effect =
    | Launch(url: string)      // `RunDownload`: cmd.exe started for one URL
    | Open(target: string)     // `ShellExecuteW` "open" on a file or folder
    | Menu(items: seq<nat>)    // the tray's popup menu, its command ids top to bottom

  /** One launch per URL, in list order. */
  function Launches(urls: seq<string>): (r: seq<Effect>)
    ensures |r| == |urls|
    ensures forall i :: 0 <= i < |urls| ==> r[i] == Launch(urls[i])
  {
    seq(|urls|, i requires 0 <= i < |urls| => Launch(urls[i]))
  }

  lemma LaunchesConcat(a: seq<string>, b: seq<string>)
    ensures Launches(a + b) == Launches(a) + Launches(b)
  {
    assert forall i :: 0 <= i < |a + b| ==> Launches(a + b)[i] == (Launches(a) + Launches(b))[i];
  }

  /** The parameters `RunDownload` passes to cmd.exe for `url`. */
  function CommandLine(url: string): string {
    "/c yt-dlp " + url
  }

  /** The same command with the URL between double quotes. */
  function QuotedCommandLine(url: string): string {
    "/c yt-dlp \"" + url + "\""
  }

  /** The characters cmd.exe reads as command separators or redirections unless they stand in double quotes or follow a `^`. */
  predicate IsCmdOperator(c: char) {
    c == '&' || c == '|' || c == '<' || c == '>'
  }

  /**
   * Whether cmd.exe sees an operator in `s`, reading it from a state inside
   * (`quoted`) or outside double quotes; each '"' switches the state, and
   * outside quotes a `^` is dropped and makes the character after it plain.
   */
  function OperatorOutsideQuotes(s: string, quoted: bool): bool {
    if s == [] then false
    else if s[0] == '"' then OperatorOutsideQuotes(s[1..], !quoted)
    else if !quoted && s[0] == '^' then (if |s| == 1 then false else OperatorOutsideQuotes(s[2..], quoted))
    else (!quoted && IsCmdOperator(s[0])) || OperatorOutsideQuotes(s[1..], quoted)
  }

  /** Plain text before the rest changes nothing about what cmd.exe sees. */
  lemma {:induction false} PlainPrefix(p: string, rest: string, quoted: bool)
    requires forall i :: 0 <= i < |p| ==> p[i] != '"' && p[i] != '^' && !IsCmdOperator(p[i])
    ensures OperatorOutsideQuotes(p + rest, quoted) == OperatorOutsideQuotes(rest, quoted)
  {
    if p != [] {
      assert (p + rest)[1..] == p[1..] + rest;
      PlainPrefix(p[1..], rest, quoted);
    } else {
      assert p + rest == rest;
    }
  }

  /** Text without quotes or escapes, read outside quotes, exposes exactly its operators. */
  lemma {:induction false} UnquotedOperators(s: string)
    requires '"' !in s && '^' !in s
    ensures OperatorOutsideQuotes(s, false) <==> exists i :: 0 <= i < |s| && IsCmdOperator(s[i])
  {
    if s != [] {
      UnquotedOperators(s[1..]);
      if exists i :: 0 <= i < |s| && IsCmdOperator(s[i]) {
        var i :| 0 <= i < |s| && IsCmdOperator(s[i]);
        if i > 0 {
          assert IsCmdOperator(s[1..][i - 1]);
        }
      }
      if exists i :: 0 <= i < |s[1..]| && IsCmdOperator(s[1..][i]) {
        var i :| 0 <= i < |s[1..]| && IsCmdOperator(s[1..][i]);
        assert IsCmdOperator(s[i + 1]);
      }
    }
  }

  /** Text without quotes, read inside quotes and then closed, exposes nothing. */
  lemma {:induction false} QuotedHidesOperators(s: string)
    requires '"' !in s
    ensures !OperatorOutsideQuotes(s + "\"", true)
  {
    if s != [] {
      assert (s + "\"")[1..] == s[1..] + "\"";
      QuotedHidesOperators(s[1..]);
    } else {
      assert s + "\"" == "\"";
    }
  }

  lemma PlainCommandHead()
    ensures forall i :: 0 <= i < |"/c yt-dlp "| ==>
      "/c yt-dlp "[i] != '"' && "/c yt-dlp "[i] != '^' && !IsCmdOperator("/c yt-dlp "[i])
  {
  }

  /** An operator with neither a quote nor a `^` before it is seen by cmd.exe. */
  lemma {:induction false} FirstOperatorExposed(s: string, i: nat)
    requires i < |s| && IsCmdOperator(s[i])
    requires '"' !in s[..i] && '^' !in s[..i]
    ensures OperatorOutsideQuotes(s, false)
  {
    if i > 0 {
      assert s[0] in s[..i];
      assert s[1..][..i - 1] == s[1..i];
      assert forall c :: c in s[1..i] ==> c in s[..i];
      FirstOperatorExposed(s[1..], i - 1);
    }
  }

  /**
   * As written, a URL holding `&` (as in `watch?v=...&t=42`) or another
   * operator with no quote or `^` before it reaches cmd.exe unquoted:
   * cmd.exe ends the `yt-dlp` command there and treats the rest as another
   * command or a redirection.
   */
  lemma CommandLineExposesOperators(url: string, i: nat)
    requires i < |url| && IsCmdOperator(url[i])
    requires '"' !in url[..i] && '^' !in url[..i]
    ensures OperatorOutsideQuotes(CommandLine(url), false)
  {
    PlainCommandHead();
    PlainPrefix("/c yt-dlp ", url, false);
    FirstOperatorExposed(url, i);
  }

  /** A YouTube link with a start time is cut at its `&`. */
  lemma TimestampedLinkIsCut()
    ensures OperatorOutsideQuotes(CommandLine("https://youtu.be/x?v=1&t=42"), false)
  {
    var url := "https://youtu.be/x?v=1&t=42";
    assert IsCmdOperator(url[22]);
    assert '"' !in url[..22] && '^' !in url[..22];
    CommandLineExposesOperators(url, 22);
  }

  /** Outside quotes `^` is an escape, not a cut: `x^&y` reaches `yt-dlp` as `x&y`. */
  lemma EscapedOperatorHidden()
    ensures !OperatorOutsideQuotes(CommandLine("x^&y"), false)
  {
    PlainCommandHead();
    PlainPrefix("/c yt-dlp ", "x^&y", false);
    assert "x^&y"[1..] == "^&y" && "^&y"[2..] == "y";
  }

  /** Quoted, any URL without a quote of its own reaches `yt-dlp` whole: cmd.exe sees no operator. */
  lemma QuotedCommandLineIsOneCommand(url: string)
    requires '"' !in url
    ensures !OperatorOutsideQuotes(QuotedCommandLine(url), false)
  {
    PlainCommandHead();
    assert QuotedCommandLine(url) == "/c yt-dlp " + ("\"" + (url + "\""));
    PlainPrefix("/c yt-dlp ", "\"" + (url + "\""), false);
    assert ("\"" + (url + "\""))[1..] == url + "\"";
    QuotedHidesOperators(url);
  }

  // Messages and commands.

  const WM_DESTROY: nat := 0x0002
  const WM_COMMAND: nat := 0x0111
  const WM_HOTKEY: nat := 0x0312
  const WM_RBUTTONUP: int := 0x0205
  const WM_APP: nat := 0x8000
  const WM_TRAY: nat := WM_APP + 1

  const ID_DOWNLOAD: nat := 200
  const ID_OPEN_LIST: nat := 201
  const ID_OPEN_FOLDER: nat := 202
  const ID_CHANGE_HOTKEY: nat := 203
  const ID_INFO: nat := 204
  const ID_EXIT: nat := 205

  const HOTKEY_ADD: nat := 1
  const HOTKEY_DOWNLOAD: nat := 2
  const VK_SPACE: int := 0x20

  /** The popup menu's command ids, top to bottom. */
  const MENU_ITEMS: seq<nat> := [ID_DOWNLOAD, ID_OPEN_LIST, ID_OPEN_FOLDER, ID_INFO, ID_EXIT]

  /** What the window procedure does with a message. */
  datatype Command =
    | DoAddLink | DoDownloadAll | DoOpenList | DoOpenDownloads | DoShowInfo
    | DoQuit | DoShowMenu | DoDestroy
    | DoNothing      // handled, returns 0, no effect
    | DoDefault      // passed to DefWindowProc

  /** `LOWORD`: the low 16 bits of a message parameter. */
  function LoWord(w: nat): (lo: nat)
    ensures lo < 0x10000
  {
    w % 0x10000
  }

  /** The inner switch on a `WM_COMMAND` id. */
  function MenuCommand(id: nat): Command {
    if id == ID_DOWNLOAD then DoDownloadAll
    else if id == ID_OPEN_LIST then DoOpenList
    else if id == ID_OPEN_FOLDER then DoOpenDownloads
    else if id == ID_INFO then DoShowInfo
    else if id == ID_EXIT then DoQuit
    else DoNothing
  }

  /** `WndProc`'s switch. */
  function Dispatch(msg: nat, wParam: nat, lParam: int): Command {
    if msg == WM_HOTKEY then
      if wParam == HOTKEY_ADD then DoAddLink
      else if wParam == HOTKEY_DOWNLOAD then DoDownloadAll
      else DoNothing
    else if msg == WM_COMMAND then MenuCommand(LoWord(wParam))
    else if msg == WM_TRAY then (if lParam == WM_RBUTTONUP then DoShowMenu else DoNothing)
    else if msg == WM_DESTROY then DoDestroy
    else DoDefault
  }

  /** The two hotkeys have their own ids and each triggers its own action; any other id does nothing. */
  lemma HotkeyDispatch(wParam: nat, lParam: int)
    ensures HOTKEY_ADD != HOTKEY_DOWNLOAD
    ensures Dispatch(WM_HOTKEY, wParam, lParam) == DoAddLink <==> wParam == HOTKEY_ADD
    ensures Dispatch(WM_HOTKEY, wParam, lParam) == DoDownloadAll <==> wParam == HOTKEY_DOWNLOAD
    ensures wParam != HOTKEY_ADD && wParam != HOTKEY_DOWNLOAD ==> Dispatch(WM_HOTKEY, wParam, lParam) == DoNothing
  {
  }

  /**
   * Every item of the popup menu leads to its own action, the download
   * item to the same one as the download hotkey; `ID_CHANGE_HOTKEY` is
   * neither in the menu nor handled.
   */
  lemma MenuItemsDispatch()
    ensures forall i :: 0 <= i < |MENU_ITEMS| ==> MenuCommand(MENU_ITEMS[i]) != DoNothing
    ensures forall i, j :: 0 <= i < j < |MENU_ITEMS| ==> MenuCommand(MENU_ITEMS[i]) != MenuCommand(MENU_ITEMS[j])
    ensures MenuCommand(ID_DOWNLOAD) == Dispatch(WM_HOTKEY, HOTKEY_DOWNLOAD, 0)
    ensures ID_CHANGE_HOTKEY !in MENU_ITEMS && MenuCommand(ID_CHANGE_HOTKEY) == DoNothing
  {
  }

  /** Only the low word of a `WM_COMMAND` parameter counts: the notification code above it is ignored. */
  lemma CommandIgnoresNotificationCode(code: nat, id: nat, lParam: int)
    requires id < 0x10000
    ensures Dispatch(WM_COMMAND, code * 0x10000 + id, lParam) == Dispatch(WM_COMMAND, id, lParam)
  {
    assert LoWord(code * 0x10000 + id) == id;
  }

  /** Exactly the four handled messages stay away from `DefWindowProc`. */
  lemma OtherMessagesPassOn(msg: nat, wParam: nat, lParam: int)
    ensures Dispatch(msg, wParam, lParam) == DoDefault <==>
      msg !in {WM_HOTKEY, WM_COMMAND, WM_TRAY, WM_DESTROY}
  {
  }

  // The program's state and what each command does to it.

  datatype HotKey = HotKey(mods: bv32, vk: int)

  datatype TrayState = TrayState(
    listFile: Option<seq<string>>,   // None until the file is first written
    hotkeys: map<nat, HotKey>,       // the ids this window holds, with their keys
    effects: seq<Effect>,
    trayIcon: bool,
    quitPosted: bool)

  /** `RegisterHotKey` under `id`, which the system may refuse (the port ignores the answer). */
  function Registering(held: map<nat, HotKey>, id: nat, key: HotKey,
                       accepts: (nat, bv32, int) -> bool): map<nat, HotKey> {
    if accepts(id, key.mods, key.vk) then held[id := key] else held
  }

  const ADD_KEY := HotKey(Hotkeys.MOD_CONTROL, VK_SPACE)
  const DOWNLOAD_KEY := HotKey(Hotkeys.MOD_CONTROL | Hotkeys.MOD_SHIFT, VK_SPACE)

  /** `RegisterHotkeys`: Ctrl+Space under id 1, then Ctrl+Shift+Space under id 2. */
  function StartupHotkeys(held: map<nat, HotKey>, accepts: (nat, bv32, int) -> bool): map<nat, HotKey> {
    Registering(Registering(held, HOTKEY_ADD, ADD_KEY, accepts), HOTKEY_DOWNLOAD, DOWNLOAD_KEY, accepts)
  }

  /**
   * Whatever the system accepts at startup, the ids held are among the two;
   * each is held exactly when the system accepts its key, and with that key.
   */
  lemma StartupHotkeysHeld(accepts: (nat, bv32, int) -> bool)
    ensures StartupHotkeys(map[], accepts).Keys <= {HOTKEY_ADD, HOTKEY_DOWNLOAD}
    ensures HOTKEY_ADD in StartupHotkeys(map[], accepts) <==> accepts(HOTKEY_ADD, Hotkeys.MOD_CONTROL, VK_SPACE)
    ensures HOTKEY_ADD in StartupHotkeys(map[], accepts) ==>
      StartupHotkeys(map[], accepts)[HOTKEY_ADD] == ADD_KEY
    ensures HOTKEY_DOWNLOAD in StartupHotkeys(map[], accepts) <==>
      accepts(HOTKEY_DOWNLOAD, Hotkeys.MOD_CONTROL | Hotkeys.MOD_SHIFT, VK_SPACE)
    ensures HOTKEY_DOWNLOAD in StartupHotkeys(map[], accepts) ==>
      StartupHotkeys(map[], accepts)[HOTKEY_DOWNLOAD] == DOWNLOAD_KEY != ADD_KEY
  {
  }

  /**
   * The keys the port registers are the Python script's default combos:
   * "ctrl" with "space", and "ctrl", "shift" with "space".
   */
  lemma SameKeysAsScriptDefaults()
    ensures Hotkeys.ParseTokens(["ctrl", "space"], Hotkeys.SampleVkNames)
         == Some(Hotkeys.Parsed(ADD_KEY.mods, ADD_KEY.vk))
    ensures Hotkeys.ParseTokens(["ctrl", "shift", "space"], Hotkeys.SampleVkNames)
         == Some(Hotkeys.Parsed(DOWNLOAD_KEY.mods, DOWNLOAD_KEY.vk))
  {
    var tokens: seq<string> := ["ctrl", "space"];
    assert Hotkeys.LastKeyIndex(tokens) == Some(1) by {
      assert !Hotkeys.IsModifier(tokens[1]);
    }
    assert "VK_" + Upper("space") == "VK_SPACE";
    Hotkeys.ParseExampleCtrlShiftSpace();
  }

  /** What `WndProc` does for each command. */
  function Perform(s: TrayState, root: string, cmd: Command, clip: Option<string>): TrayState {
    match cmd
    case DoAddLink => s.(listFile := AppendClip(s.listFile, clip))
    case DoDownloadAll =>
      s.(effects := s.effects + Launches(ListLines(Lines(s.listFile))), listFile := Some([]))
    case DoOpenList => s.(effects := s.effects + [Open(DownloadList(root))])
    case DoOpenDownloads => s.(effects := s.effects + [Open(DownloadFolder(root))])
    case DoShowInfo => s.(effects := s.effects + [Open(InfoFile(root))])
    case DoQuit => s.(quitPosted := true)
    case DoShowMenu => s.(effects := s.effects + [Menu(MENU_ITEMS)])
    case DoDestroy =>
      s.(hotkeys := s.hotkeys - {HOTKEY_ADD, HOTKEY_DOWNLOAD}, trayIcon := false, quitPosted := true)
    case DoNothing => s
    case DoDefault => s
  }

  /**
   * The download hotkey launches every non-empty line in file order and
   * leaves an empty list, so pressing it again launches nothing.
   */
  lemma DownloadDrainsList(s: TrayState, root: string, clip: Option<string>, lParam: int)
    ensures var s' := Perform(s, root, Dispatch(WM_HOTKEY, HOTKEY_DOWNLOAD, lParam), clip);
      && s'.listFile == Some([])
      && s'.effects == s.effects + Launches(ListLines(Lines(s.listFile)))
      && Perform(s', root, Dispatch(WM_HOTKEY, HOTKEY_DOWNLOAD, lParam), clip).effects == s'.effects
  {
    assert Launches([]) == [];
  }

  /** A copied single-line link is the last URL the next download hands to `RunDownload`. */
  lemma CopiedLinkIsLaunched(s: TrayState, root: string, url: string, lParam: int)
    requires url != [] && NL !in url
    ensures var s' := Perform(s, root, Dispatch(WM_HOTKEY, HOTKEY_ADD, lParam), Some(url));
      Perform(s', root, Dispatch(WM_HOTKEY, HOTKEY_DOWNLOAD, lParam), None).effects
        == s.effects + Launches(ListLines(Lines(s.listFile))) + [Launch(url)]
  {
    HotkeyDispatch(HOTKEY_ADD, lParam);
    HotkeyDispatch(HOTKEY_DOWNLOAD, lParam);
    var s' := Perform(s, root, DoAddLink, Some(url));
    AppendedLinkReadLast(s.listFile, url);
    LaunchesConcat(ListLines(Lines(s.listFile)), [url]);
    assert Launches([url]) == [Launch(url)];
    assert Perform(s', root, DoDownloadAll, None).effects == s.effects + Launches(ListLines(Lines(s.listFile)) + [url]);
  }

  /** Closing the window releases every hotkey taken at startup, removes the icon and ends the loop. */
  lemma DestroyReleasesHotkeys(s: TrayState, root: string, accepts: (nat, bv32, int) -> bool, lParam: int)
    requires s.hotkeys == StartupHotkeys(map[], accepts)
    ensures var s' := Perform(s, root, Dispatch(WM_DESTROY, 0, lParam), None);
      s'.hotkeys == map[] && !s'.trayIcon && s'.quitPosted && s'.listFile == s.listFile
  {
    StartupHotkeysHeld(accepts);
  }

  /**
   * The program's globals: the root directory fixed at startup, the list
   * file, and what the window has registered and asked the shell to do.
   */
  class TrayApp {
    const root: string
    var listFile: Option<seq<string>>
    var hotkeys: map<nat, HotKey>
    var effects: seq<Effect>
    var trayIcon: bool
    var quitPosted: bool

    function State(): TrayState
      reads this
    {
      TrayState(listFile, hotkeys, effects, trayIcon, quitPosted)
    }

    /**
     * `wWinMain` up to the message loop: derive the paths from the
     * executable's name, register the two hotkeys (`accepts` says which
     * the system grants) and add the tray icon.
     */
    constructor(moduleFileName: string, listFile: Option<seq<string>>, accepts: (nat, bv32, int) -> bool)
      ensures root == GetModuleDir(moduleFileName)
      ensures State() == TrayState(listFile, StartupHotkeys(map[], accepts), [], true, false)
    {
      root := GetModuleDir(moduleFileName);
      this.listFile := listFile;
      hotkeys := map[];
      effects := [];
      trayIcon := false;
      quitPosted := false;
      new;
      RegisterHotkeys(accepts);
      trayIcon := true;
    }

    method RegisterHotkeys(accepts: (nat, bv32, int) -> bool)
      modifies this
      ensures State() == old(State()).(hotkeys := StartupHotkeys(old(hotkeys), accepts))
    {
      if accepts(HOTKEY_ADD, ADD_KEY.mods, ADD_KEY.vk) {
        hotkeys := hotkeys[HOTKEY_ADD := ADD_KEY];
      }
      if accepts(HOTKEY_DOWNLOAD, DOWNLOAD_KEY.mods, DOWNLOAD_KEY.vk) {
        hotkeys := hotkeys[HOTKEY_DOWNLOAD := DOWNLOAD_KEY];
      }
    }

    method UnregisterHotkeys()
      modifies this
      ensures State() == old(State()).(hotkeys := old(hotkeys) - {HOTKEY_ADD, HOTKEY_DOWNLOAD})
    {
      hotkeys := hotkeys - {HOTKEY_ADD};
      hotkeys := hotkeys - {HOTKEY_DOWNLOAD};
    }

    /** `AddLinkFromClipboard`, given what the clipboard holds. */
    method AddLinkFromClipboard(clip: Option<string>)
      modifies this
      ensures State() == old(State()).(listFile := AppendClip(old(listFile), clip))
    {
      if clip.None? {
        return;
      }
      var text := clip.value;
      if text == [] {
        return;
      }
      listFile := Some(Lines(listFile) + Written(text));
    }

    /** `ReadList`: the non-empty lines, read one `getline` at a time. */
    method ReadList() returns (res: seq<string>)
      ensures res == ListLines(Lines(listFile))
    {
      var lines := Lines(listFile);
      res := [];
      var i := 0;
      while i < |lines|
        invariant 0 <= i <= |lines|
        invariant res == ListLines(lines[..i])
      {
        var line := lines[i];
        assert lines[..i + 1] == lines[..i] + [line];
        NonBlankConcat(lines[..i], [line], Verbatim);
        NonBlankSingle(line, Verbatim);
        if line != [] {
          res := res + [line];
        }
        i := i + 1;
      }
      assert lines[..i] == lines;
    }

    /** `ClearList`: opening the file with `trunc` empties it, creating it if need be. */
    method ClearList()
      modifies this
      ensures State() == old(State()).(listFile := Some([]))
    {
      listFile := Some([]);
    }

    /** `DownloadAll`: launch every listed URL in order, then empty the list. */
    method DownloadAll()
      modifies this
      ensures State() == Perform(old(State()), root, DoDownloadAll, None)
    {
      var urls := ReadList();
      var i := 0;
      while i < |urls|
        invariant 0 <= i <= |urls|
        invariant effects == old(effects) + Launches(urls[..i])
        invariant listFile == old(listFile) && hotkeys == old(hotkeys)
        invariant trayIcon == old(trayIcon) && quitPosted == old(quitPosted)
      {
        assert urls[..i + 1] == urls[..i] + [urls[i]];
        LaunchesConcat(urls[..i], [urls[i]]);
        assert Launches([urls[i]]) == [Launch(urls[i])];
        effects := effects + [Launch(urls[i])];
        i := i + 1;
      }
      assert urls[..i] == urls;
      ClearList();
    }

    method OpenList()
      modifies this
      ensures State() == old(State()).(effects := old(effects) + [Open(DownloadList(root))])
    {
      effects := effects + [Open(DownloadList(root))];
    }

    method OpenDownloads()
      modifies this
      ensures State() == old(State()).(effects := old(effects) + [Open(DownloadFolder(root))])
    {
      effects := effects + [Open(DownloadFolder(root))];
    }

    /** `ShowInfo`: open `info.txt` in the system folder. */
    method ShowInfo()
      modifies this
      ensures State() == old(State()).(effects := old(effects) + [Open(InfoFile(root))])
    {
      effects := effects + [Open(InfoFile(root))];
    }

    method ShowMenu()
      modifies this
      ensures State() == old(State()).(effects := old(effects) + [Menu(MENU_ITEMS)])
    {
      effects := effects + [Menu(MENU_ITEMS)];
    }

    /**
     * `WndProc`, with the clipboard's content at the time of the message.
     * Returns whether the message went on to `DefWindowProc`.
     */
    method WndProc(msg: nat, wParam: nat, lParam: int, clip: Option<string>) returns (passedOn: bool)
      modifies this
      ensures passedOn <==> Dispatch(msg, wParam, lParam) == DoDefault
      ensures State() == Perform(old(State()), root, Dispatch(msg, wParam, lParam), clip)
    {
      passedOn := false;
      if msg == WM_HOTKEY {
        if wParam == HOTKEY_ADD {
          AddLinkFromClipboard(clip);
        } else if wParam == HOTKEY_DOWNLOAD {
          DownloadAll();
        }
      } else if msg == WM_COMMAND {
        var id := LoWord(wParam);
        if id == ID_DOWNLOAD {
          DownloadAll();
        } else if id == ID_OPEN_LIST {
          OpenList();
        } else if id == ID_OPEN_FOLDER {
          OpenDownloads();
        } else if id == ID_INFO {
          ShowInfo();
        } else if id == ID_EXIT {
          quitPosted := true;
        }
      } else if msg == WM_TRAY {
        if lParam == WM_RBUTTONUP {
          ShowMenu();
        }
      } else if msg == WM_DESTROY {
        UnregisterHotkeys();
        trayIcon := false;
        quitPosted := true;
      } else {
        passedOn := true;
      }
    }
  }
}
