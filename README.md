# Link downloader: hotkeys, link queues and the download list

This project models the core of a small desktop utility that collects media
links and hands them to a downloader. The utility exists in several revisions:

- **gui_downloader.py** has two revisions, one at the repository root and one
  under `scripts/`. Each is a Tk window holding a queue of links. Links come
  from the clipboard or a text field. Entries can be removed, selected ones or
  all at once. A worker thread downloads the queue. The same file also has a
  console-only mode (`run_headless`) with its own queue. The revision under
  `scripts/` binds its global hotkeys through `HotkeyManager`. That class
  registers a combo such as `ctrl+shift+space` natively with Win32's
  `RegisterHotKey` under a fresh numeric id. When that is impossible or
  fails, it falls back to the `keyboard` library's hook table. The root
  revision calls `keyboard` directly. Both revisions keep their settings in a
  record made of the defaults overridden by the settings file. The `scripts/`
  revision reads it from `config.ini` and the root one from `config.json`.
  The settings form (`apply_settings`) rewrites the record and re-binds the
  hotkeys.
- **main_windows_strict.py** is a tray script. Its add-link hotkey appends
  the copied link to `download-list.txt` unless that link is already listed.
  Its download hotkey starts a worker. The worker routes every listed link by
  its URL (`handle_url`): YouTube playlist, YouTube video, Pinterest image, or
  unsupported. Then it empties the list.
- **cpp/main_windows_strict.cpp** is a native port of the tray script. It
  keeps its files beside the executable. It appends the raw clipboard text to
  the list. It starts one `cmd.exe /c yt-dlp <url>` per non-empty line. All
  of this is dispatched from one window procedure, for two fixed hotkeys and a
  popup menu.

The model is organised by module:

- `Wrappers`: `Option` and `Result`.
- `Text`: the Python string primitives the code relies on, namely
  `str.strip`, `str.split` with `str.join`, ASCII case mapping and the `in`
  substring test.
- `Url`: `urlparse(url).hostname`, with the three `ValueError`s `urlsplit`
  raises: brackets that do not pair up, a checked host that is not an IPv6
  address or IPvFuture literal (the host in brackets, or the plain host when
  the brackets are only in the user information), text around the
  brackets, and a
  non-ASCII network location that Unicode NFKC normalisation turns into one
  holding a delimiter.
- `Config`: loading and merging the settings, and the settings form.
- `Hotkeys`: `HotkeyManager`. Pure step functions give the meaning of each
  call. A class holding the source's fields is proved to follow them.
- `ListOps`: the sequence facts about the queues.
- `ListFile`: `download-list.txt` as a sequence of lines, tied to the text
  the programs read and write.
- `Gui`: the window's `App` and the console mode's `Headless` queue.
- `Strict`: the tray script.
- `Tray`: the C++ port.

Parts of the environment are parameters of the model. The clipboard text,
form fields and the settings file as parsed are given as values. The outcome
of each download is a function of the URL. So are the system's answer to
`RegisterHotKey` and whether the hook library accepts a combo. The Unicode
NFKC normalisation and `ipaddress.ip_address` that `urlsplit` calls are
functions too, given together as a `Url.UrlLib`. Whether the download folder
can be created is a flag. Other threads appear as the links they add at each
step of a download run.

Where the documented design of the hotkey manager and the code differ, the
model follows the code:

- Native registration also falls back to the hook when `RegisterHotKey`
  returns false, not only when it raises.
- An exception from the hook layer escapes `register`. In the model this is
  the `HookRaised` binding.
- The counter advances on every call that reaches `RegisterHotKey`, even a
  refused one.
- The listener thread stays started after `unregister_all`. So "a listener
  exists if and only if a native binding exists" holds only up to the first
  `unregister_all`.
- The `config.ini` loader raises on a malformed file instead of falling back
  to the defaults. See Findings.

## Model

| member | source | states |
|---|---|---|
| `Config.GuiDefaults` | scripts/gui_downloader.py:191-195 | The default record has exactly the keys download_path, add_hotkey and download_hotkey. Its hotkeys are ctrl+space and ctrl+shift+space. |
| `Config.Merge` | gui_downloader.py:64 | `{**defaults, **data}` has every key of either map. The file's value wins wherever both have one. |
| `Config.MergeIdempotent` | main_windows_strict.py:99 | Merging the same file data twice gives the same record as merging it once. |
| `Config.MergeEmpty` | main_windows_strict.py:99 | An empty settings object yields exactly the defaults. |
| `Config.LoadJsonConfig` | main_windows_strict.py:94-102 | A missing file, an unreadable file, or JSON that is not an object gives exactly the defaults. An object gives the defaults' and the object's keys with the file's values. Every default key is always present afterwards. |
| `Config.LoadJsonConfigRoundTrip` | gui_downloader.py:52-68 | A saved record holding every default key loads back exactly as saved. |
| `Config.LoadIniConfigAsWritten` | scripts/gui_downloader.py:205-219 | As written, the loader raises exactly for a file that cannot be parsed. Otherwise it agrees with the intended loader. |
| `Config.MalformedIniRaises` | scripts/gui_downloader.py:211-212 | A `config.ini` with a syntax error makes `load_config` raise instead of returning the defaults. |
| `Config.LoadIniConfig` | scripts/gui_downloader.py:205-219 | The intended loader never fails. Without a `hotkeys` section, or when some option of that section (merged over `DEFAULT`) does not interpolate, it gives the defaults. Otherwise every option of the section comes with its interpolated value, over the defaults. |
| `Config.LoadIniConfigPlain` | scripts/gui_downloader.py:213-216 | A file whose values hold no `%` loads as written: the `hotkeys` section wins over `DEFAULT`, which wins over the built-in defaults. |
| `Config.BarePercentGivesDefaults` | scripts/gui_downloader.py:213-219 | A hotkey written `ctrl+%` makes `parser.items` raise inside the `try`, so the whole file is ignored and the defaults are returned. |
| `Config.HotkeysOptions` | scripts/gui_downloader.py:214 | The options read are the `hotkeys` section merged over `DEFAULT`, present exactly when the file has that section. |
| `Config.Items` | scripts/gui_downloader.py:214 | `parser.items` yields every option exactly when every option interpolates, and then with the same keys. |
| `Config.ItemsPlain` | scripts/gui_downloader.py:214 | Without any `%`, the items are the options as written. |
| `Config.Interpolate` | scripts/gui_downloader.py:214 | Definition: `configparser`'s `BasicInterpolation` of one value. The nesting depth is checked first, against a limit of 10. Its properties are the lemmas below. |
| `Config.Expand` | scripts/gui_downloader.py:214 | Definition: text is copied, `%%` gives `%`, `%(name)s` gives the lower-cased name's value (interpolated one level deeper when it holds `%`), and any other `%` raises. The first error from the left is the one raised. |
| `Config.ExpandPlain` | scripts/gui_downloader.py:214 | Text without `%` is copied as it is. |
| `Config.ExpandPlainPrefix` | scripts/gui_downloader.py:214 | Text without `%` in front of the rest is copied, and the rest is expanded after it, errors included. |
| `Config.InterpolatePlain` | scripts/gui_downloader.py:214 | An option value without `%` is its own interpolation. |
| `Config.TrailingPercentRaises` | scripts/gui_downloader.py:214 | A `%` at the end of a value is a syntax error. |
| `Config.EscapedPercent` | scripts/gui_downloader.py:214 | `%%` between `%`-free text stands for one `%`. |
| `Config.KeyRef` | scripts/gui_downloader.py:214 | A match of `%(name)s` consumes exactly that text, with a non-empty name free of `)`. |
| `Config.KeyRefOf` | scripts/gui_downloader.py:214 | The reference `%(name)s` at the start of a value is matched with that name and consumes exactly itself. |
| `Config.ReferenceReplaced` | scripts/gui_downloader.py:214 | `%(name)s` becomes the value of the option it names, when that value has no `%`. |
| `Config.SelfReferenceTooDeep` | scripts/gui_downloader.py:214 | An option whose value refers to itself is refused with the depth error, from any starting depth. |
| `Config.CloseParen` | scripts/gui_downloader.py:214 | The position found is the first `)`, or the end when there is none. |
| `Config.OrDefault` | scripts/gui_downloader.py:547-548 | `text or fallback` is the text unless the text is empty, and then it is the fallback. |
| `Config.ApplySettings` | scripts/gui_downloader.py:546-548 | The form sets the download path verbatim. An empty hotkey field means the default combo. Every other key keeps its value. |
| `Config.AppliedHotkeysNonEmpty` | scripts/gui_downloader.py:547-548 | After applying the form, both hotkey combos are non-empty. |
| `Config.ApplySettingsIdempotent` | gui_downloader.py:257-259 | Applying the same form twice gives the same record as applying it once. |
| `Text.StripSpec` | scripts/gui_downloader.py:584 | `strip()` returns a contiguous slice of its input. Only whitespace lies outside the slice, and the slice neither begins nor ends with whitespace. |
| `Text.Strip` | scripts/gui_downloader.py:584 | `strip()` never lengthens the text. What it keeps is given by `Text.StripSpec`. |
| `Text.StripEmptyIff` | scripts/gui_downloader.py:584-585 | `strip()` is empty exactly when the text is all whitespace. |
| `Text.StripIdempotent` | main_windows_strict.py:274-284 | Stripping an already-stripped link changes nothing. So the copied link and the stripped list lines compare as like with like. |
| `Text.Lower` | scripts/gui_downloader.py:103 | `lower()` keeps the length and maps each character on its own, ASCII capitals to small letters. |
| `Text.LowerIdempotent` | main_windows_strict.py:194 | Lower-casing twice is lower-casing once. |
| `Text.Upper` | scripts/gui_downloader.py:116-119 | `upper()` keeps the length and maps each ASCII small letter to its capital. |
| `Text.Split` | scripts/gui_downloader.py:103 | `split('+')` always yields at least one piece. |
| `Text.Join` | scripts/gui_downloader.py:103 | Definition: pieces joined with the separator between them, the inverse that `Text.JoinSplit` and `Text.SplitJoin` tie to `split`. |
| `Text.JoinSplit` | scripts/gui_downloader.py:103 | Joining the pieces of a split with the separator gives the original text back. |
| `Text.SplitJoin` | scripts/gui_downloader.py:103 | Splitting a join of separator-free pieces gives the pieces back. |
| `Text.ContainsIff` | main_windows_strict.py:196 | `sub in s` holds exactly when `sub` occurs at some offset of `s`. |
| `Url.LStripC0Suffix` | main_windows_strict.py:193 | `urlsplit` first drops the leading control characters and spaces, and nothing else. |
| `Url.RemoveUnsafeClean` | main_windows_strict.py:193 | After `urlsplit` deletes tabs and line breaks, none remain. |
| `Url.Hostname` | main_windows_strict.py:193-194 | Definition: the lower-cased host, "" without a network location, or the error `urlsplit` raises on the network location. The lemmas below state its values. |
| `Url.HostOfNetloc` | main_windows_strict.py:193-194 | Definition: the unbalanced-bracket check, then the bracketed-host check, then the normalisation check, in `urlsplit`'s order, and otherwise the lower-cased host part. |
| `Url.BracketCheck` | main_windows_strict.py:193 | Definition: run when the network location holds both brackets. After the last `@`, when a `[` is there, nothing may precede it and only `:` may follow `]`, and the host is what the brackets hold; when none is there, the host is the text before the first `:`. Either host goes through `Url.BracketedHostCheck`. Its properties are `Url.BracketedNetloc`, `Url.TextBeforeBracketRaises` and `Url.UserinfoBracketChecksHost`. |
| `Url.BracketedHostCheck` | main_windows_strict.py:193 | Definition: a host starting with `v` must be IPvFuture; any other must be IPv6 by `ipaddress`, so an IPv4 address or a name fails. |
| `Url.NfkcRejects` | main_windows_strict.py:193 | Definition: a non-empty, non-ASCII network location is refused when its NFKC form, with `@`, `:`, `#` and `?` taken out first, differs and holds `/`, `?`, `#`, `@` or `:`. |
| `Url.IndexOf` | main_windows_strict.py:193 | `find` gives the first position of the character, or nothing exactly when it does not occur. |
| `Url.Before` | main_windows_strict.py:193 | `partition(c)[0]` is a prefix without `c`, ending just before the first `c` if there is one. |
| `Url.After` | main_windows_strict.py:193 | `partition(c)[2]` is what follows the first `c`, and nothing when there is no `c`. |
| `Url.HexLength` | main_windows_strict.py:193 | The length of the leading run of hexadecimal digits. |
| `Url.WithoutNone` | main_windows_strict.py:193 | Taking out characters that do not occur leaves the text as it was. |
| `Url.AsciiPassesNfkc` | main_windows_strict.py:193 | An ASCII network location always passes the normalisation check. |
| `Url.PlainNetlocHost` | main_windows_strict.py:193-194 | A network location without brackets that passes the normalisation check gives its lower-cased host part. |
| `Url.HostnameLowered` | main_windows_strict.py:193-194 | A hostname that is found comes back already lower-cased. |
| `Url.HostnameOfParts` | main_windows_strict.py:193-194 | The hostname of `scheme://netloc/path` is what the three checks and the host part make of exactly the text between `//` and the first `/`, `?` or `#`. |
| `Url.HostnameOfCanonical` | main_windows_strict.py:193-194 | For `scheme://user@host:port/path` with a host free of delimiters, the hostname is the lower-cased host, provided the network location passes the normalisation check (every ASCII one does). |
| `Url.HostnameOfPlain` | main_windows_strict.py:193-194 | For `scheme://host/path` with a host free of delimiters that passes the normalisation check, the hostname is the lower-cased host. |
| `Url.UnbalancedRaises` | main_windows_strict.py:193 | A bracket without its partner in the network location makes `urlparse` raise `ValueError`. |
| `Url.BracketedParts` | main_windows_strict.py:193-194 | In `[addr]port` nothing precedes the bracket, the bracketed text is `addr`, what follows is `port`, and the host part is `addr`. |
| `Url.BracketedNetloc` | main_windows_strict.py:193-194 | A bracketed host followed by a port or nothing gives the lower-cased address when `ipaddress` reads it as IPv6. Any other address not starting with `v` raises, IPv4 included. |
| `Url.BracketedAscii` | main_windows_strict.py:193 | A bracketed network location built from ASCII parts is ASCII. |
| `Url.TextBeforeBracketRaises` | main_windows_strict.py:193 | A network location such as `x[y]z`, with text before the bracket, raises. |
| `Url.UserinfoBracketParts` | main_windows_strict.py:193-194 | In `user@host:port` with brackets only in `user`, both brackets are present, the part after the last `@` has no `[`, and the text before its first `:` is the host. |
| `Url.UserinfoBracketChecksHost` | main_windows_strict.py:193-194 | Brackets only in the user information still send the plain host to `ipaddress`: it raises unless read as IPv6, and is otherwise the lower-cased host once the normalisation check passes. |
| `Url.UserinfoBracketRaises` | main_windows_strict.py:193 | `u[1]@youtube.com` raises whenever `ipaddress` does not read `youtube.com` as IPv6. |
| `Url.NormalisedDelimiterRejected` | main_windows_strict.py:193 | A non-ASCII network location free of brackets and of `@`, `:`, `#`, `?`, whose NFKC form differs and holds a delimiter, is refused. |
| `Url.AccountSignRejected` | main_windows_strict.py:193 | The network location `a\u2100b`, which NFKC turns into `aa/cb`, is refused. |
| `Url.AccountSignRaises` | main_windows_strict.py:193 | So a URL such as `https://a\u2100b/` raises. |
| `Url.NoAuthorityNoHost` | main_windows_strict.py:193 | A URL pasted without a scheme and without `//` has an empty hostname. |
| `Hotkeys.FoldModsIsModsOf` | scripts/gui_downloader.py:101-111 | The mask built by OR-ing in one flag per token is the OR of the flags of the modifier tokens present. |
| `Hotkeys.ModsOfExact` | scripts/gui_downloader.py:103-111 | Each flag is set exactly when its modifier token occurs, and no other bit is ever set. |
| `Hotkeys.ModsOfOrderFree` | scripts/gui_downloader.py:103-111 | The mask depends only on which tokens occur, not on their order or repetition. |
| `Hotkeys.LastKeyIndex` | scripts/gui_downloader.py:102-113 | The base key is the last non-modifier token. There is none exactly when every token is a modifier. |
| `Hotkeys.ScanToken` | scripts/gui_downloader.py:104-113 | One pass of the loop ORs in the token's flag, or makes a non-modifier token the key. |
| `Hotkeys.ScanTokens` | scripts/gui_downloader.py:101-113 | The loop ends with the set-based mask and the last base-key token. |
| `Hotkeys.ResolveKey` | scripts/gui_downloader.py:116-121 | A key resolves through its `VK_` name when win32con has one. Otherwise a single character resolves to its upper-case code. Any other key fails. |
| `Hotkeys.ParseTokens` | scripts/gui_downloader.py:101-122 | Parsing succeeds exactly when a base key exists and resolves. The result carries the mask of the modifiers present and the resolved key code. |
| `Hotkeys.ParseTokensByLoop` | scripts/gui_downloader.py:101-122 | The parse result is determined by the loop's mask and last key. |
| `Hotkeys.ParseCombo` | scripts/gui_downloader.py:98-122 | A combo parses exactly when the Win32 modules are there and its last non-modifier token, lower-cased, resolves to a key code. The result carries the modifiers present anywhere in the combo and that key code. |
| `Hotkeys.ParseComboIgnoresCase` | scripts/gui_downloader.py:103 | A combo parses the same whatever the case of its letters. |
| `Hotkeys.ParseComboNeedsBaseKey` | scripts/gui_downloader.py:114-115 | A combo made only of modifiers does not parse. |
| `Hotkeys.ParseComboEmpty` | scripts/gui_downloader.py:103-121 | The empty combo is one empty token taken as the key. Without a bare `VK_` name it resolves to nothing, so it does not parse. |
| `Hotkeys.Tokens` | scripts/gui_downloader.py:103 | Definition: `combo.lower().split('+')`. What it yields is stated by `Hotkeys.TokensAtPlus` and `Hotkeys.TokensNoPlus`. |
| `Hotkeys.TokensAtPlus` | scripts/gui_downloader.py:103 | The text before the first `+` becomes the first token, lower-cased. |
| `Hotkeys.TokensNoPlus` | scripts/gui_downloader.py:103 | A combo without `+` is one lower-cased token. |
| `Hotkeys.InitialWf` | scripts/gui_downloader.py:93-96 | A fresh manager satisfies the invariant. Ids in use lie between 1 and the counter, a native binding implies a started listener, and nothing native exists without the native path. |
| `Hotkeys.RegisterStep` | scripts/gui_downloader.py:139-155 | Definition: one `register` call, native when possible, otherwise the hook. Its properties are `Hotkeys.RegisterOutcome`, `Hotkeys.RegisterKeepsWf` and `Hotkeys.RegisterCounter`. |
| `Hotkeys.UnregisterAllStep` | scripts/gui_downloader.py:157-165 | Definition: one `unregister_all` call. Its properties are `Hotkeys.UnregisterAllClears` and `Hotkeys.UnregisterAllIdempotent`. |
| `Hotkeys.LookupId` | scripts/gui_downloader.py:131-135 | The listener finds a callback exactly for a bound id, and it is the one stored under that id. |
| `Hotkeys.RegisterKeepsWf` | scripts/gui_downloader.py:139-155 | `register` preserves the manager's invariant. |
| `Hotkeys.RegisterOutcome` | scripts/gui_downloader.py:139-155 | A call binds natively exactly when the native path exists, the combo parses and `RegisterHotKey` accepts. It then adds one entry under a previously unused id. Otherwise the id table is unchanged and the hook is added exactly when the hook layer accepts. No call does both. |
| `Hotkeys.RegisterCounter` | scripts/gui_downloader.py:144-151 | The counter advances exactly on the calls that reach `RegisterHotKey`. The listener starts on the first native success and stays started. |
| `Hotkeys.TwoNativeIdsDistinct` | scripts/gui_downloader.py:144-148 | Two native bindings in a row get distinct non-zero ids, and both stay bound to their own callbacks. |
| `Hotkeys.UnregisterAllClears` | scripts/gui_downloader.py:157-165 | After `unregister_all` both tables are empty and no id finds a callback. The counter is kept, so later ids never repeat earlier ones. |
| `Hotkeys.UnregisterAllIdempotent` | scripts/gui_downloader.py:157-165 | A second `unregister_all` changes nothing. |
| `Hotkeys.RegisterThenUnregister` | scripts/gui_downloader.py:139-165 | `register` followed by `unregister_all` leaves no binding of either kind. |
| `Hotkeys.ParseExampleCtrlShiftSpace` | scripts/gui_downloader.py:194 | The default download combo parses to the Ctrl and Shift flags with the space key. |
| `Hotkeys.ParseExampleKeyInMiddle` | scripts/gui_downloader.py:103-113 | The base key need not come last, and modifiers count wherever they stand. |
| `Hotkeys.ParseExampleUnknownKey` | scripts/gui_downloader.py:116-121 | An unknown multi-letter key does not resolve, so the combo is unparseable. |
| `Hotkeys.ParseExampleAltA` | scripts/gui_downloader.py:98-122 | "Alt+A" parses to MOD_ALT with key code 65. |
| `Hotkeys.TokensAltA` | scripts/gui_downloader.py:103 | "Alt+A" splits into the tokens "alt" and "a". |
| `Hotkeys.HotkeyManager.constructor` | scripts/gui_downloader.py:93-96 | A new manager has no ids, counter 1, no listener and no hooks. |
| `Hotkeys.HotkeyManager.ParseWin` | scripts/gui_downloader.py:98-122 | The token loop's result is the parse of the combo. |
| `Hotkeys.HotkeyManager.Register` | scripts/gui_downloader.py:139-155 | The fields and the binding are those of one `register` step, and the invariant is kept. |
| `Hotkeys.HotkeyManager.UnregisterAll` | scripts/gui_downloader.py:157-165 | Every bound id is handed back on the native path and none otherwise. The state becomes that of `unregister_all`. |
| `Hotkeys.HotkeyManager.Lookup` | scripts/gui_downloader.py:133 | The listener's `ids.get` agrees with the registry lookup. |
| `ListFile.NonBlank` | main_windows_strict.py:236 | Reading keeps at most one entry per line, and no kept entry is empty. |
| `ListFile.NonBlankMembers` | main_windows_strict.py:282 | A link is read from the file exactly when it is the non-empty stripped form of some line. |
| `ListFile.Urls` | main_windows_strict.py:236 | Definition: the Python reading, the non-empty stripped lines in order. Membership is stated by `ListFile.NonBlankMembers`. |
| `ListFile.ListLines` | cpp/main_windows_strict.cpp:66-77 | Definition: the C++ reading, the non-empty lines as they stand, in order. |
| `ListFile.SplitFileText` | main_windows_strict.py:235-236 | Reading the text of a file written line by line gives its lines back, followed by an empty rest. |
| `ListFile.ReadingFileText` | main_windows_strict.py:235-236 | Reading the file text gives the same links as reading its lines. |
| `ListFile.WriteAppends` | main_windows_strict.py:289-290 | Appending `text + "\n"` adds exactly that text and a line break to the file's text. |
| `ListFile.ReadingsAgree` | cpp/main_windows_strict.cpp:66-77 | On a file whose lines are already stripped, the C++ `ReadList` and the Python reading give the same links. |
| `ListOps.KeptNothing` | scripts/gui_downloader.py:594-595 | An empty selection removes nothing. |
| `ListOps.Kept` | scripts/gui_downloader.py:592-597 | Definition: the items at unselected indices, in order. Its properties are `ListOps.KeptMembers` and `ListOps.KeptSelectionLength`. |
| `ListOps.KeptDeleteStep` | scripts/gui_downloader.py:595-597 | Deleting index `i` after all higher selected indices removes exactly the item that was at `i`. |
| `ListOps.KeptSelectionLength` | scripts/gui_downloader.py:592-597 | Removing a selection shortens the queue by exactly the number of indices selected. |
| `ListOps.KeptMembers` | scripts/gui_downloader.py:592-597 | An item remains exactly when it stands at some unselected index. |
| `ListOps.FailuresMembers` | scripts/gui_downloader.py:616-619 | A URL is reported as failed exactly when it was tried and its download raised. |
| `ListOps.Failures` | scripts/gui_downloader.py:614-619 | Definition: the URLs whose download raised, in the order tried. Its properties are `ListOps.FailuresMembers` and `ListOps.FailuresBounded`. |
| `ListOps.FailuresConcat` | scripts/gui_downloader.py:614-619 | Failures of consecutive downloads add up in order. |
| `ListOps.FailuresBounded` | scripts/gui_downloader.py:614-619 | No more failures are reported than URLs tried. |
| `ListOps.NothingArrives` | scripts/gui_downloader.py:620-621 | Without other threads, nothing is appended during a run. |
| `Gui.Grab` | scripts/gui_downloader.py:584-585 | A text is taken exactly when it is not all whitespace. It is then taken stripped: non-empty, with no whitespace at either end. |
| `Gui.RegisterBoth` | scripts/gui_downloader.py:554-560 | Definition: the add combo, then the download combo, the second skipped when the first raises. Its property is `Gui.ReRegisterLeavesOnlyNew`. |
| `Gui.ReRegisterLeavesOnlyNew` | scripts/gui_downloader.py:539-560 | Re-binding after `unregister_all` leaves at most two native ids and the invariant. Each id is bound to the callback whose registration returned it, and only hooks on the two new combos remain. |
| `Gui.App.constructor` | scripts/gui_downloader.py:425-433 | The queue and list widget start empty, the settings are the loaded ones, and both hotkeys are registered. |
| `Gui.App.RegisterHotkeys` | scripts/gui_downloader.py:554-560 | The add combo is registered, then the download combo, unless the first raised. |
| `Gui.App.ApplySettings` | scripts/gui_downloader.py:539-552 | The settings become the applied form and all bindings are dropped. When the download folder can be created, the two new combos are registered. When it cannot, `apply_settings` stops there and no hotkey stays bound. The queue is untouched. |
| `Gui.App.AddFromEntry` | scripts/gui_downloader.py:572-580 | A non-blank entry joins the queue stripped and the entry is cleared. A blank entry changes nothing. |
| `Gui.App.ReadClipboard` | scripts/gui_downloader.py:582-590 | A non-blank clipboard text joins the queue stripped, and anything else adds nothing. The list widget mirrors the queue. |
| `Gui.App.RemoveSelected` | scripts/gui_downloader.py:592-597 | Deleting the selected rows from the highest index down leaves exactly the unselected items, in order. |
| `Gui.App.ClearList` | scripts/gui_downloader.py:599-602 | The queue and the widget are emptied, and nothing else changes. |
| `Gui.App.DownloadWorker` | scripts/gui_downloader.py:610-624 | Every URL of the snapshot is tried in order, and the failures are those that raised. Afterwards the queue holds exactly what other threads appended meanwhile. |
| `Gui.App.StartDownloads` | scripts/gui_downloader.py:604-608 | An empty queue starts nothing. Otherwise the worker's outcome follows. |
| `Gui.App.OnHotkey` | scripts/gui_downloader.py:131-135 | A hotkey message runs the callback registered under its id, if any. |
| `Gui.WorkerStep` | scripts/gui_downloader.py:620-621 | After each download and `pop(0)`, the queue is the rest of the snapshot followed by all arrivals so far. |
| `Gui.DrainLogFifo` | scripts/gui_downloader.py:298-308 | The console drain announces every queued URL first in first out, whatever fails. It reports exactly the failed ones. |
| `Gui.DrainLogConcat` | scripts/gui_downloader.py:302-308 | The log of a drain is the logs of its parts in order. |
| `Gui.DrainLogSnoc` | scripts/gui_downloader.py:302-308 | One more download extends the log by its own lines. |
| `Gui.DrainLog` | scripts/gui_downloader.py:298-308 | Definition: per URL, its announcement and, when its download raises, the failure line. Its properties are `Gui.DrainLogFifo` and `Gui.DrainLogConcat`. |
| `Gui.Headless.constructor` | scripts/gui_downloader.py:271 | The console queue starts empty. |
| `Gui.Headless.ReadClipboard` | scripts/gui_downloader.py:273-280 | A non-blank text is appended stripped and announced. Otherwise "clipboard empty" is printed and the queue is unchanged. |
| `Gui.Headless.StartDownloads` | scripts/gui_downloader.py:298-308 | An empty queue only prints a message. Otherwise the drain serves the queue and everything appended meanwhile, in order, and ends with an empty queue. |
| `Gui.DrainStep` | scripts/gui_downloader.py:302-303 | Each `pop(0)` serves the next URL of the queue extended by the arrivals, and the work left strictly decreases. |
| `Gui.DrainAloneServesQueue` | scripts/gui_downloader.py:298-308 | Without interference the drain makes one download per queued URL. Its log announces exactly the queued URLs in order and reports exactly the failed ones. |
| `Strict.ClassifyCases` | main_windows_strict.py:196-213 | The playlist mark anywhere in the URL routes to the playlist. Otherwise a YouTube host routes to video, then a Pinterest host to image. Everything else is unsupported. |
| `Strict.Classify` | main_windows_strict.py:196-213 | Definition: the if-chain of `handle_url`. Its cases are stated by `Strict.ClassifyCases`. |
| `Strict.HandleUrl` | main_windows_strict.py:191-213 | Definition: the route of the URL and its hostname, or the error `urlparse` raises. Its routes are stated by `Strict.HandleUrlRoutes`. |
| `Strict.HandleUrlRoutes` | main_windows_strict.py:191-213 | `handle_url` raises exactly when `urlparse` does. Otherwise the playlist route is taken exactly when the URL holds the mark. The video route is taken exactly when it does not and the host names YouTube. The Pinterest route is taken exactly when neither holds and the host names Pinterest. |
| `Strict.PlaylistTestFirst` | main_windows_strict.py:196-199 | Whatever the host, a parseable URL holding the playlist mark goes to the playlist downloader. |
| `Strict.PlaylistMarkAnywhere` | main_windows_strict.py:196 | The mark in the path counts too, for any host free of delimiters that passes the normalisation check. |
| `Strict.RouteByHost` | main_windows_strict.py:193-209 | For a URL with a host free of delimiters whose network location passes the normalisation check, the route is decided by the lower-cased host, whatever the user information and port. |
| `Strict.SchemelessUnsupported` | main_windows_strict.py:193-213 | A link pasted without a scheme has no host, so it is unsupported unless it holds the playlist mark. |
| `Strict.UnbalancedBracketRaises` | main_windows_strict.py:193 | A bracket without its partner raises, even for a playlist URL. |
| `Strict.UserinfoBracketAborts` | main_windows_strict.py:191-201 | `https://u[1]@youtube.com/watch` makes `handle_url` raise instead of routing it as a video. |
| `Strict.FullwidthSolidusRaises` | main_windows_strict.py:193 | A link such as `https://youtube.com\uff0fwatch`, whose full-width solidus normalises to `/`, raises instead of being downloaded. |
| `Strict.FullwidthSolidusRejected` | main_windows_strict.py:193 | That network location fails the normalisation check. |
| `Strict.AddLinkOutcome` | main_windows_strict.py:267-291 | A blank copy or an already-listed link leaves the file as it was, and a missing file stays missing. A new link is written stripped at the end. |
| `Strict.AddLink` | main_windows_strict.py:267-291 | Definition: the stripped copy is appended with a line break unless it is empty or already listed. Its outcomes are stated by `Strict.AddLinkOutcome`. |
| `Strict.AddLinkKeepsNoDup` | main_windows_strict.py:279-290 | Adding a single-line link keeps the list free of repeats and puts the new link last. |
| `Strict.MultiLineClipRepeats` | main_windows_strict.py:274-290 | The duplicate check compares the whole copied text with single lines, so a two-line copy can list a link twice. |
| `Strict.NoAddsNoChange` | main_windows_strict.py:267-291 | Without key presses during a run, the list stays as it was. |
| `Strict.AfterAddsExtends` | main_windows_strict.py:289-290 | Adding links only ever appends lines. |
| `Strict.AddLinkExtends` | main_windows_strict.py:289-290 | One addition keeps every existing line where it was. |
| `Strict.RouteAllSpec` | main_windows_strict.py:242-243 | For any handler, the loop routes a prefix of the URLs in order. It stops exactly at the first URL that raises, or after the last one. |
| `Strict.RouteAllIs` | main_windows_strict.py:242-243 | For any handler, the loop's outcome is determined by the routes found and the place it stopped. |
| `Strict.RouteAll` | main_windows_strict.py:242-243 | Definition: the worker's loop over any handler, stopping at the first URL that raises. Its properties are `Strict.RouteAllSpec` and `Strict.RouteAllIs`. |
| `Strict.HandleEach` | main_windows_strict.py:242-243 | Definition: that loop with `handle_url` as the handler. Its properties are `Strict.HandleEachSpec` and `Strict.HandleEachIs`. |
| `Strict.HandleEachSpec` | main_windows_strict.py:242-243 | The worker's loop routes each URL by `handle_url` in order. It stops exactly at the first URL that raises, or after the last one. |
| `Strict.HandleEachIs` | main_windows_strict.py:242-243 | The worker's loop outcome is determined by the routes found and the place it stopped. |
| `Strict.RunWorker` | main_windows_strict.py:229-260 | A missing or blank list ends the run with a message and no change. A completed run has routed every listed URL and empties the list. An aborted run stopped at the first URL `urlparse` rejects and leaves the list as it then stands. |
| `Strict.AbortedRunKeepsList` | main_windows_strict.py:242-245 | Without interference, a run that stops early leaves the list exactly as it was. |
| `Strict.LinksAddedDuringRunAreLost` | main_windows_strict.py:235-245 | A link added while a run goes through its URLs is listed by the end but not downloaded. Then the list is emptied all the same. |
| `Strict.FirstAddListed` | main_windows_strict.py:289-290 | A link added during a run stays listed through every later step. |
| `Strict.StrictDownloader.constructor` | main_windows_strict.py:56 | The script starts with its list file and the `downloading` event clear. |
| `Strict.StrictDownloader.AddLinkFromClipboard` | main_windows_strict.py:267-291 | The list file and the outcome are those of adding the copied text, and the event is untouched. |
| `Strict.StrictDownloader.DownloadAll` | main_windows_strict.py:216-263 | A run starts exactly when none is going on. The event is set afterwards and the list is untouched. |
| `Strict.StrictDownloader.Worker` | main_windows_strict.py:229-260 | The list and the outcome are those of a run of the worker, and the event is cleared in every case. |
| `Strict.StrictDownloader.RouteUrls` | main_windows_strict.py:242-243 | The loop's routes and stopping URL are the outcome of the loop over the URLs. |
| `Strict.StrictDownloader.AddDuringRun` | main_windows_strict.py:267-291 | The list becomes the list with the add-link hotkey applied once per step. |
| `Tray.LastSeparator` | cpp/main_windows_strict.cpp:32 | `find_last_of(L"\\/")` finds a separator with none after it, or reports that there is none. |
| `Tray.ModulePath` | cpp/main_windows_strict.cpp:29-31 | The module name is cut to fit the `MAX_PATH` buffer and is kept whole when it fits. |
| `Tray.DirOf` | cpp/main_windows_strict.cpp:32-35 | The directory is a prefix of the path. It is the whole path exactly when there is no separator. Otherwise a `\` or `/` follows it, and no separator comes after that one. |
| `Tray.LastSeparatorSkipsName` | cpp/main_windows_strict.cpp:32 | A separator-free tail does not move the last separator. |
| `Tray.DirOfJoin` | cpp/main_windows_strict.cpp:32-34 | The directory of `dir\name` or `dir/name` is `dir`. |
| `Tray.FoldersInRoot` | cpp/main_windows_strict.cpp:199-202 | The system and downloads folders sit in the program's directory. |
| `Tray.FilesInSystemDir` | cpp/main_windows_strict.cpp:199-202 | The list and `info.txt` sit in the system folder. |
| `Tray.RootOfExecutable` | cpp/main_windows_strict.cpp:27-36 | For an executable `dir\exe` or `dir/exe` whose name fits the buffer, the root is `dir`. |
| `Tray.ForwardSlashRoot` | cpp/main_windows_strict.cpp:32-34 | `C:/x/app.exe` has its root in `C:/x`. |
| `Tray.GetModuleDir` | cpp/main_windows_strict.cpp:27-36 | Definition: the directory of the module name as the buffer holds it. Its values are stated by `Tray.RootOfExecutable`. |
| `Tray.AppendClip` | cpp/main_windows_strict.cpp:38-64 | Definition: the clipboard text and a line break appended, unless there is no text. Its effect is stated by `Tray.AppendClipWrites`. |
| `Tray.AppendClipWrites` | cpp/main_windows_strict.cpp:38-64 | No text, or an empty text, leaves the file alone. Otherwise the file's text gains the clipboard text and a line break. |
| `Tray.AddsAgreeOnNewLink` | cpp/main_windows_strict.cpp:38-64 | For a new link copied without surrounding blanks, the port and the Python script leave the same list. |
| `Tray.AppendedLinkReadLast` | cpp/main_windows_strict.cpp:61-63 | A copied single-line link becomes the last line `ReadList` returns. |
| `Tray.CopiedTwiceListedTwice` | cpp/main_windows_strict.cpp:38-64 | The port has no duplicate check: a link copied twice is listed twice. |
| `Tray.Launches` | cpp/main_windows_strict.cpp:93-94 | One launch per URL, in list order. |
| `Tray.LaunchesConcat` | cpp/main_windows_strict.cpp:93-94 | Launches of consecutive lists add up in order. |
| `Tray.UnquotedOperators` | cpp/main_windows_strict.cpp:87 | Text without quotes or `^`, read outside quotes, exposes an operator to cmd.exe exactly when it contains one. |
| `Tray.PlainPrefix` | cpp/main_windows_strict.cpp:87 | Text without quotes, `^` or operators in front changes nothing about what cmd.exe sees. |
| `Tray.FirstOperatorExposed` | cpp/main_windows_strict.cpp:87 | An operator with neither a quote nor a `^` anywhere before it is seen by cmd.exe. |
| `Tray.CommandLine` | cpp/main_windows_strict.cpp:86-87 | Definition: `/c yt-dlp ` followed by the URL, unquoted. What cmd.exe makes of it is stated by `Tray.CommandLineExposesOperators`. |
| `Tray.QuotedHidesOperators` | cpp/main_windows_strict.cpp:87 | Text without quotes, read inside quotes and then closed, exposes nothing. |
| `Tray.CommandLineExposesOperators` | cpp/main_windows_strict.cpp:84-88 | As written, a URL with `&`, a pipe, `<` or `>` that has no quote or `^` before it reaches cmd.exe unquoted and is cut there. |
| `Tray.EscapedOperatorHidden` | cpp/main_windows_strict.cpp:86-87 | Outside quotes `^` is an escape, not a cut: `x^&y` exposes no operator. |
| `Tray.TimestampedLinkIsCut` | cpp/main_windows_strict.cpp:86-87 | A YouTube link with a start time, such as `...?v=1&t=42`, is cut at its `&`. |
| `Tray.QuotedCommandLineIsOneCommand` | cpp/main_windows_strict.cpp:86-87 | Quoted, any URL without a quote of its own reaches `yt-dlp` whole. |
| `Tray.LoWord` | cpp/main_windows_strict.cpp:172 | `LOWORD` is below 0x10000. |
| `Tray.HotkeyDispatch` | cpp/main_windows_strict.cpp:165-170 | The two hotkey ids differ. Id 1 adds a link, id 2 downloads, and any other id does nothing. |
| `Tray.MenuItemsDispatch` | cpp/main_windows_strict.cpp:145-180 | Each menu item triggers its own distinct command. The menu's download item does what the download hotkey does. The unused "change hotkey" id is not in the menu and does nothing. |
| `Tray.CommandIgnoresNotificationCode` | cpp/main_windows_strict.cpp:172 | Only the low word of a `WM_COMMAND` parameter selects the command. |
| `Tray.OtherMessagesPassOn` | cpp/main_windows_strict.cpp:161-194 | Exactly the messages other than the four handled ones go to `DefWindowProc`. |
| `Tray.Dispatch` | cpp/main_windows_strict.cpp:161-194 | Definition: `WndProc`'s switch. Its cases are stated by `Tray.HotkeyDispatch`, `Tray.MenuItemsDispatch` and `Tray.OtherMessagesPassOn`. |
| `Tray.Perform` | cpp/main_windows_strict.cpp:161-194 | Definition: what each command does to the state. Its properties are `Tray.DownloadDrainsList`, `Tray.CopiedLinkIsLaunched` and `Tray.DestroyReleasesHotkeys`. |
| `Tray.StartupHotkeysHeld` | cpp/main_windows_strict.cpp:114-118 | Whatever the system accepts, only ids 1 and 2 are held. Id 1 is held exactly when Ctrl+Space is accepted, and with that key. Id 2 is held exactly when Ctrl+Shift+Space is accepted, and with that key. |
| `Tray.SameKeysAsScriptDefaults` | cpp/main_windows_strict.cpp:116-117 | The port's two keys are what the Python scripts' default combos parse to. |
| `Tray.DownloadDrainsList` | cpp/main_windows_strict.cpp:90-96 | The download hotkey launches every non-empty line in file order and empties the list. Pressing it again launches nothing. |
| `Tray.CopiedLinkIsLaunched` | cpp/main_windows_strict.cpp:165-170 | A link copied with the add hotkey is the last URL the next download hands to `RunDownload`. |
| `Tray.DestroyReleasesHotkeys` | cpp/main_windows_strict.cpp:185-189 | Closing the window releases every hotkey taken at startup, removes the icon and ends the loop. The list is kept. |
| `Tray.TrayApp.constructor` | cpp/main_windows_strict.cpp:196-210 | The root is the executable's directory. The hotkeys are those registered at startup, and the icon is shown. |
| `Tray.TrayApp.RegisterHotkeys` | cpp/main_windows_strict.cpp:114-118 | Ctrl+Space is registered under id 1 and Ctrl+Shift+Space under id 2, each held when the system accepts it. |
| `Tray.TrayApp.UnregisterHotkeys` | cpp/main_windows_strict.cpp:120-124 | Both ids are released, and nothing else changes. |
| `Tray.TrayApp.AddLinkFromClipboard` | cpp/main_windows_strict.cpp:38-64 | The list becomes the clipboard append, and nothing else changes. |
| `Tray.TrayApp.ReadList` | cpp/main_windows_strict.cpp:66-77 | The result is the file's non-empty lines in order. A missing file reads as empty. |
| `Tray.TrayApp.ClearList` | cpp/main_windows_strict.cpp:79-82 | The list file exists afterwards and is empty. |
| `Tray.TrayApp.DownloadAll` | cpp/main_windows_strict.cpp:90-96 | One launch per listed line in order, then an empty list. |
| `Tray.TrayApp.OpenList` | cpp/main_windows_strict.cpp:109-112 | The list file is opened, and nothing else changes. |
| `Tray.TrayApp.OpenDownloads` | cpp/main_windows_strict.cpp:104-107 | The downloads folder is opened, and nothing else changes. |
| `Tray.TrayApp.ShowInfo` | cpp/main_windows_strict.cpp:98-102 | `system\info.txt` is opened, and nothing else changes. |
| `Tray.TrayApp.ShowMenu` | cpp/main_windows_strict.cpp:145-159 | The popup menu with the five items is shown, and nothing else changes. |
| `Tray.TrayApp.WndProc` | cpp/main_windows_strict.cpp:161-194 | A message is passed on exactly when it is unhandled. The new state is that of the dispatched command. |

## Left out

- Downloading itself (`yt_dlp`, the Pinterest scraper, `requests`) is left out. Each download is a function of the URL that says whether `download_url` raised. In the tray script only the routing is kept, because every downloader there catches its own exceptions.
- Threads are not modelled as concurrency. What another thread adds while a worker runs is given per step of the run. In `Strict.StrictDownloader.Worker`, the routing loop runs first and the hotkey additions are applied after it. The outcome is the same as interleaving them, because the worker reads the file only once, before the loop.
- The race between `clear_list` (or `remove_selected`) and a running window worker is not modelled. The worker's `pop(0)` then removes entries that are not the ones it downloaded.
- Timers, the 0.2-second clipboard delay, and `keyboard.press_and_release('ctrl+c')` are left out. The clipboard text is given.
- The GUI is left out: widget layout, progress dots and bars, message boxes, icons, tray menus and the icon flashing of the Python scripts. The list widget is kept only as the row sequence that mirrors the queue.
- The progress hook and its percentage arithmetic are left out. They involve floating point and only drive the display.
- `save_config` and file writes of the settings are left out. The `scripts/` revision's `save_config` stores only the two hotkeys, so a chosen download path is not kept across restarts; the model does not record the saved file.
- The native availability test (`os.name == 'nt'` and the Win32 imports) is one flag, because the three imports succeed or fail together.
- The listener thread's message loop (`_run_loop`) is modelled only as its id lookup. `Hotkeys.HotkeyManager.Lookup` and `Gui.App.OnHotkey` cover it.
- The `keyboard` hook table is modelled as the list of combos added. Its key-release behaviour and suppression are not.
- Files are read as `'\n'`-separated lines. Python's translation of `'\r\n'` and the C++ wide-stream encoding are not modelled.
- A hand-edited list file without a final line break is not modelled. Such a last line would be joined to the next appended link.
- Case mapping covers only ASCII letters, so `lower()` and `upper()` of other letters are not modelled.
- Single-instance locking, logging and printing are left out, and so is `ensure_directories` of main_windows_strict.py.
- The root gui_downloader.py's `register_hotkeys` (one `try` around both `keyboard.add_hotkey` calls, so a failure on the first combo skips the second) is not modelled; `Gui.App`'s hotkey state follows the scripts/ revision's `HotkeyManager`, and the root revision is covered for its queue and config operations only.
- `Gui.App.constructor`: `ensure_download_dir` in `__init__` is taken to succeed. When it raises, no window is created, so there is no state to describe.
- Unicode NFKC normalisation and `ipaddress.ip_address` are not defined here. They are oracles in `Url.UrlLib`, and a lemma that needs one of their values takes it as a requirement.
- Option names in `%(name)s` are lower-cased for ASCII letters only, like the rest of the case mapping. The syntax of `config.ini` (sections, continuation lines, comments) is part of the parsing that the model takes as given.
- In the C++ port, a missing `system` folder makes the file opens fail silently. The model treats the folder as present.
- The expansion of `%` variables by cmd.exe is not modelled. Only command separators and redirections are.
- The Windows XP behaviour of `GetModuleFileNameW`, which leaves a truncated name unterminated, is not modelled. The model takes the newer behaviour of a terminated, truncated name.
- `Text.Split`: its contract states only that a split has at least one piece. Its meaning is given by `Text.JoinSplit` and `Text.SplitJoin`.
- `ListFile.NonBlank`: its contract gives only a bound and non-emptiness. Membership is stated by `ListFile.NonBlankMembers`.

## Findings

| source | as written | input that shows it | evidently intended | confidence | as-written member | corrected member |
|---|---|---|---|---|---|---|
| scripts/gui_downloader.py:205-219 | `parser.read(CONFIG_FILE)` is called outside the `try`, so a parse error escapes `load_config` and the program fails at start | a `config.ini` whose first line is `add_hotkey = ctrl+q` with no section header (configparser raises `MissingSectionHeaderError`) | the docstring's promise: a broken file gives the defaults and the error is logged | not executed | `Config.MalformedIniRaises` | `Config.LoadIniConfig` |
| cpp/main_windows_strict.cpp:84-88 | the URL is appended to `/c yt-dlp ` unquoted, so cmd.exe cuts the command at an unescaped `&`, pipe, `<` or `>` outside quotes (a `^` escapes the next character and is itself dropped) | `https://youtu.be/x?v=1&t=42`: `yt-dlp` receives only `https://youtu.be/x?v=1`, and `t=42` is run as a command | the whole URL passed to one `yt-dlp` command, as the Python script does | not executed | `Tray.TimestampedLinkIsCut` | `Tray.QuotedCommandLineIsOneCommand` |
