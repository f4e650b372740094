/**
 * Loading the settings record and applying the settings form.
 *
 * All three Python revisions keep their settings in a dictionary built as
 * `{**DEFAULT_CONFIG, **data}`: the defaults, overridden by whatever the
 * settings file holds. The file itself is not parsed here; what the parser
 * produced (or that it failed) is given.
 */
module Config {
  import opened Wrappers
  import opened Text

  type Config = map<string, string>

  const ADD_HOTKEY := "add_hotkey"
  const DOWNLOAD_HOTKEY := "download_hotkey"
  const DOWNLOAD_PATH := "download_path"

  const DEFAULT_ADD_HOTKEY := "ctrl+space"
  const DEFAULT_DOWNLOAD_HOTKEY := "ctrl+shift+space"

  /** `DEFAULT_CONFIG` of main_windows_strict.py: the two hotkeys only. */
  const StrictDefaults: Config :=
    map[ADD_HOTKEY := DEFAULT_ADD_HOTKEY, DOWNLOAD_HOTKEY := DEFAULT_DOWNLOAD_HOTKEY]

  /**
   * `DEFAULT_CONFIG` of both gui_downloader.py revisions: the two hotkeys and
   * the download folder, `<root>/Downloads`, whose value depends on where the
   * program lives and so is given.
   */
  function GuiDefaults(downloads: string): (d: Config)
    ensures d.Keys == {DOWNLOAD_PATH, ADD_HOTKEY, DOWNLOAD_HOTKEY}
    ensures d[DOWNLOAD_PATH] == downloads
    ensures d[ADD_HOTKEY] == DEFAULT_ADD_HOTKEY && d[DOWNLOAD_HOTKEY] == DEFAULT_DOWNLOAD_HOTKEY
  {
    StrictDefaults[DOWNLOAD_PATH := downloads]
  }

  /**
   * `{**defaults, **data}`: every key of either map, with the file's value
   * winning wherever both have one.
   */
  function Merge(defaults: Config, data: Config): (cfg: Config)
    ensures cfg.Keys == defaults.Keys + data.Keys
    ensures forall k :: k in data ==> cfg[k] == data[k]
    ensures forall k :: k in defaults && k !in data ==> cfg[k] == defaults[k]
  {
    defaults + data
  }

  /** Merging the same file twice changes nothing more than merging it once. */
  lemma MergeIdempotent(defaults: Config, data: Config)
    ensures Merge(Merge(defaults, data), data) == Merge(defaults, data)
  {
  }

  /** An empty file yields exactly the defaults. */
  lemma MergeEmpty(defaults: Config)
    ensures Merge(defaults, map[]) == defaults
  {
  }

  /** What `json.load` made of `config.json`, or why there is nothing. */
  datatype JsonFile =
    | NoFile                         // os.path.exists is false
    | Broken                         // open or json.load raised
    | NotAnObject                    // decoded, but `**data` of a non-dict raises
    | Object(entries: Config)        // a JSON object

  /**
   * `load_config` of main_windows_strict.py and of gui_downloader.py: the
   * defaults overridden by the file's keys when the file decodes to an
   * object, otherwise a copy of the defaults. Every default key is present
   * afterwards, so the callers' `cfg['add_hotkey']` cannot fail.
   */
  function LoadJsonConfig(file: JsonFile, defaults: Config): (cfg: Config)
    ensures defaults.Keys <= cfg.Keys
    ensures file.Object? ==> cfg.Keys == defaults.Keys + file.entries.Keys
    ensures !file.Object? ==> cfg == defaults
    ensures forall k :: k in cfg ==>
      cfg[k] == if file.Object? && k in file.entries then file.entries[k] else defaults[k]
  {
    match file
    case Object(entries) => Merge(defaults, entries)
    case _ => defaults
  }

  /** A settings file holding every default key is loaded exactly as written. */
  lemma LoadJsonConfigRoundTrip(saved: Config, defaults: Config)
    requires defaults.Keys <= saved.Keys
    ensures LoadJsonConfig(Object(saved), defaults) == saved
  {
    var cfg := LoadJsonConfig(Object(saved), defaults);
    assert cfg.Keys == saved.Keys;
    assert forall k :: k in cfg ==> cfg[k] == saved[k];
  }

  /**
   * What `configparser` made of `config.ini`. `sections` excludes the
   * `DEFAULT` section, whose entries every section inherits; option names
   * are given already lower-cased, as `configparser` stores them.
   */
  datatype IniFile =
    | IniUnread                                          // missing or not openable: `read` returns []
    | IniMalformed                                       // `read` raises a parsing error
    | Ini(defaultSection: Config, sections: map<string, Config>)

  datatype ConfigError = ParsingError

  /**
   * `load_config` of scripts/gui_downloader.py as written: `parser.read`
   * runs outside the `try`, so a file that cannot be parsed raises out of
   * `load_config` instead of falling back to the defaults.
   */
  function LoadIniConfigAsWritten(file: IniFile, defaults: Config): (r: Result<Config, ConfigError>)
    ensures r.Err? <==> file.IniMalformed?
    ensures r.Ok? ==> r.value == LoadIniConfig(file, defaults)
  {
    match file
    case IniMalformed => Err(ParsingError)
    case _ => Ok(LoadIniConfig(file, defaults))
  }

  /** The file that shows the discrepancy: a settings file with a syntax error. */
  lemma MalformedIniRaises(defaults: Config)
    ensures LoadIniConfigAsWritten(IniMalformed, defaults) == Err(ParsingError)
  {
  }

  // `configparser`'s `BasicInterpolation`, which `parser.items` applies to every value.

  /** How deep `%(name)s` references may nest before `configparser` gives up. */
  const MAX_INTERPOLATION_DEPTH: nat := 10

  datatype InterpolationError =
    | InterpolationSyntax           // a '%' followed by neither '%' nor a well-formed `%(name)s`
    | MissingOption(name: string)   // `%(name)s` naming no option
    | InterpolationDepth            // references nested deeper than MAX_INTERPOLATION_DEPTH

  /** The position of the first ')' in `s`, or `|s|` when there is none. */
  function CloseParen(s: string): (k: nat)
    ensures k <= |s|
    ensures k < |s| ==> s[k] == ')'
    ensures forall i :: 0 <= i < k ==> s[i] != ')'
  {
    if s == [] || s[0] == ')' then 0 else 1 + CloseParen(s[1..])
  }

  /** A reference `%(name)s` at the start of a value: the name and where the text after it begins. */
  datatype KeyMatch = KeyMatch(name: string, end: nat)

  /** The pattern `%\(([^)]+)\)s` matched at the start of `rest`, which begins with "%(". */
  function KeyRef(rest: string): (r: Option<KeyMatch>)
    requires |rest| >= 2 && rest[0] == '%' && rest[1] == '('
    ensures r.Some? ==>
      && 4 <= r.value.end <= |rest|
      && rest[..r.value.end] == "%(" + r.value.name + ")s"
      && r.value.name != []
      && forall i :: 0 <= i < |r.value.name| ==> r.value.name[i] != ')'
  {
    var body := rest[2..];
    var k := CloseParen(body);
    if k == 0 || k + 1 >= |body| || body[k + 1] != 's' then None
    else
      assert rest[..k + 4] == "%(" + body[..k] + ")s";
      Some(KeyMatch(body[..k], k + 4))
  }

  /** `text` in front of what an interpolation yields, if it yields anything. */
  function Prepend(text: string, r: Result<string, InterpolationError>): Result<string, InterpolationError> {
    match r
    case Ok(t) => Ok(text + t)
    case Err(e) => Err(e)
  }

  /**
   * `_interpolate_some` at nesting `depth` (1 for an option's own value):
   * the depth is checked first, then the value is expanded.
   */
  function Interpolate(value: string, vars: Config, depth: nat): Result<string, InterpolationError>
    requires 1 <= depth <= MAX_INTERPOLATION_DEPTH + 1
    decreases MAX_INTERPOLATION_DEPTH + 1 - depth, |value| + 1
  {
    if depth > MAX_INTERPOLATION_DEPTH then Err(InterpolationDepth)
    else Expand(value, vars, depth)
  }

  /**
   * The loop of `_interpolate_some` from `rest` on: text is copied, "%%"
   * becomes "%", `%(name)s` becomes the value of the lower-cased name (itself
   * interpolated one level deeper when it holds a '%'), and any other '%'
   * is an error. The first error, left to right, is the one raised.
   */
  function Expand(rest: string, vars: Config, depth: nat): Result<string, InterpolationError>
    requires 1 <= depth <= MAX_INTERPOLATION_DEPTH
    decreases MAX_INTERPOLATION_DEPTH + 1 - depth, |rest|
  {
    if rest == [] then Ok([])
    else if rest[0] != '%' then Prepend([rest[0]], Expand(rest[1..], vars, depth))
    else if |rest| >= 2 && rest[1] == '%' then Prepend("%", Expand(rest[2..], vars, depth))
    else if |rest| >= 2 && rest[1] == '(' then
      match KeyRef(rest)
      case None => Err(InterpolationSyntax)
      case Some(m) =>
        var name := Lower(m.name);
        if name !in vars then Err(MissingOption(name))
        else
          var v := if '%' in vars[name] then Interpolate(vars[name], vars, depth + 1) else Ok(vars[name]);
          match v
          case Err(e) => Err(e)
          case Ok(t) => Prepend(t, Expand(rest[m.end..], vars, depth))
    else Err(InterpolationSyntax)
  }

  /** Text without '%' is copied as it is. */
  lemma {:induction false} ExpandPlain(rest: string, vars: Config, depth: nat)
    requires 1 <= depth <= MAX_INTERPOLATION_DEPTH
    requires '%' !in rest
    ensures Expand(rest, vars, depth) == Ok(rest)
  {
    if rest != [] {
      assert '%' !in rest[1..] by {
        assert forall i :: 0 <= i < |rest[1..]| ==> rest[1..][i] == rest[i + 1];
      }
      ExpandPlain(rest[1..], vars, depth);
      assert [rest[0]] + rest[1..] == rest;
    }
  }

  /** Text without '%' in front of the rest is copied and the rest expanded after it. */
  lemma {:induction false} ExpandPlainPrefix(p: string, rest: string, vars: Config, depth: nat)
    requires 1 <= depth <= MAX_INTERPOLATION_DEPTH
    requires '%' !in p
    ensures Expand(p + rest, vars, depth) == Prepend(p, Expand(rest, vars, depth))
  {
    if p == [] {
      assert p + rest == rest;
      match Expand(rest, vars, depth)
      case Ok(t) => assert p + t == t;
      case Err(_) =>
    } else {
      assert (p + rest)[0] == p[0];
      assert (p + rest)[1..] == p[1..] + rest;
      assert '%' !in p[1..] by {
        assert forall i :: 0 <= i < |p[1..]| ==> p[1..][i] == p[i + 1];
      }
      ExpandPlainPrefix(p[1..], rest, vars, depth);
      match Expand(rest, vars, depth)
      case Ok(t) => assert [p[0]] + (p[1..] + t) == p + t;
      case Err(_) =>
    }
  }

  /** An option value without '%' is its own interpolation. */
  lemma InterpolatePlain(value: string, vars: Config)
    requires '%' !in value
    ensures Interpolate(value, vars, 1) == Ok(value)
  {
    ExpandPlain(value, vars, 1);
  }

  /** A '%' at the end of a value is a syntax error, so `ctrl+%` cannot be read. */
  lemma TrailingPercentRaises(p: string, vars: Config)
    requires '%' !in p
    ensures Interpolate(p + "%", vars, 1) == Err(InterpolationSyntax)
  {
    ExpandPlainPrefix(p, "%", vars, 1);
  }

  /** "%%" stands for one '%'. */
  lemma EscapedPercent(p: string, q: string, vars: Config)
    requires '%' !in p && '%' !in q
    ensures Interpolate(p + "%%" + q, vars, 1) == Ok(p + "%" + q)
  {
    assert p + "%%" + q == p + ("%%" + q);
    ExpandPlainPrefix(p, "%%" + q, vars, 1);
    assert ("%%" + q)[2..] == q;
    ExpandPlain(q, vars, 1);
    assert p + ("%" + q) == p + "%" + q;
  }

  /** The reference `%(name)s` at the start of a value is matched with that name. */
  lemma KeyRefOf(name: string, rest: string)
    requires name != [] && forall i :: 0 <= i < |name| ==> name[i] != ')'
    ensures var text := "%(" + name + ")s" + rest;
      KeyRef(text) == Some(KeyMatch(name, |name| + 4)) && text[|name| + 4..] == rest
  {
    var text := "%(" + name + ")s" + rest;
    var body := text[2..];
    assert body == name + ")s" + rest;
    assert body[|name|] == ')';
    assert forall i :: 0 <= i < |name| ==> body[i] == name[i];
    assert body[..|name|] == name;
  }

  /** `%(name)s` is replaced by the value of the option it names, when that value holds no '%'. */
  lemma ReferenceReplaced(name: string, vars: Config)
    requires name != [] && forall i :: 0 <= i < |name| ==> name[i] != ')'
    requires Lower(name) in vars && '%' !in vars[Lower(name)]
    ensures Interpolate("%(" + name + ")s", vars, 1) == Ok(vars[Lower(name)])
  {
    var text := "%(" + name + ")s";
    KeyRefOf(name, "");
    assert text + "" == text;
    assert text[0] == '%' && text[1] == '(';
    assert text[|name| + 4..] == [];
    assert Expand(text, vars, 1) == Prepend(vars[Lower(name)], Expand([], vars, 1));
    assert vars[Lower(name)] + [] == vars[Lower(name)];
  }

  /**
   * An option whose value refers to itself nests without end and is refused
   * once the nesting passes MAX_INTERPOLATION_DEPTH.
   */
  lemma {:induction false} SelfReferenceTooDeep(name: string, vars: Config, depth: nat)
    requires name != [] && forall i :: 0 <= i < |name| ==> name[i] != ')'
    requires Lower(name) in vars && vars[Lower(name)] == "%(" + name + ")s"
    requires 1 <= depth <= MAX_INTERPOLATION_DEPTH + 1
    ensures Interpolate("%(" + name + ")s", vars, depth) == Err(InterpolationDepth)
    decreases MAX_INTERPOLATION_DEPTH + 1 - depth
  {
    if depth <= MAX_INTERPOLATION_DEPTH {
      KeyRefOf(name, "");
      assert "%(" + name + ")s" + "" == "%(" + name + ")s";
      assert '%' in vars[Lower(name)] by {
        assert vars[Lower(name)][0] == '%';
      }
      SelfReferenceTooDeep(name, vars, depth + 1);
    }
  }

  /** Whether every option of `d` interpolates against `d`. */
  predicate AllInterpolate(d: Config) {
    forall k :: k in d ==> Interpolate(d[k], d, 1).Ok?
  }

  /**
   * `parser.items(section)` on `d`, the section merged over `DEFAULT`: every
   * option with its interpolated value, or nothing when one of them raises.
   */
  function Items(d: Config): (r: Option<Config>)
    ensures r.Some? <==> AllInterpolate(d)
    ensures r.Some? ==> r.value.Keys == d.Keys
  {
    if AllInterpolate(d) then Some(map k | k in d :: Interpolate(d[k], d, 1).value) else None
  }

  /** Without any '%', the items are the options as written. */
  lemma ItemsPlain(d: Config)
    requires forall k :: k in d ==> '%' !in d[k]
    ensures Items(d) == Some(d)
  {
    forall k | k in d
      ensures Interpolate(d[k], d, 1) == Ok(d[k])
    {
      InterpolatePlain(d[k], d);
    }
    assert (map k | k in d :: Interpolate(d[k], d, 1).value) == d;
  }

  /** The options `load_config` reads: `hotkeys` merged over `DEFAULT`, if the file has that section. */
  function HotkeysOptions(file: IniFile): (d: Option<Config>)
    ensures d.Some? <==> file.Ini? && "hotkeys" in file.sections
    ensures d.Some? ==> d.value.Keys == file.defaultSection.Keys + file.sections["hotkeys"].Keys
  {
    if file.Ini? && "hotkeys" in file.sections then Some(Merge(file.defaultSection, file.sections["hotkeys"]))
    else None
  }

  /**
   * `load_config` of scripts/gui_downloader.py as its documentation states
   * it: `parser.items('hotkeys')` merged over the defaults. A missing
   * `hotkeys` section or a value that does not interpolate raises inside
   * the `try` and, like a missing or broken file, gives a copy of the
   * defaults.
   */
  function LoadIniConfig(file: IniFile, defaults: Config): (cfg: Config)
    ensures defaults.Keys <= cfg.Keys
    ensures HotkeysOptions(file).None? ==> cfg == defaults
    ensures HotkeysOptions(file).Some? && !AllInterpolate(HotkeysOptions(file).value) ==> cfg == defaults
    ensures HotkeysOptions(file).Some? && AllInterpolate(HotkeysOptions(file).value) ==>
      var d := HotkeysOptions(file).value;
      && cfg.Keys == defaults.Keys + d.Keys
      && (forall k :: k in d ==> cfg[k] == Interpolate(d[k], d, 1).value)
      && (forall k :: k in defaults && k !in d ==> cfg[k] == defaults[k])
  {
    match HotkeysOptions(file)
    case None => defaults
    case Some(d) =>
      match Items(d)
      case None => defaults
      case Some(items) => Merge(defaults, items)
  }

  /**
   * A file whose values hold no '%' loads as written: the `hotkeys` section
   * wins over `DEFAULT`, which wins over the built-in defaults.
   */
  lemma LoadIniConfigPlain(file: IniFile, defaults: Config)
    requires file.Ini? && "hotkeys" in file.sections
    requires forall k :: k in file.defaultSection ==> '%' !in file.defaultSection[k]
    requires forall k :: k in file.sections["hotkeys"] ==> '%' !in file.sections["hotkeys"][k]
    ensures var cfg := LoadIniConfig(file, defaults);
      && cfg.Keys == defaults.Keys + file.defaultSection.Keys + file.sections["hotkeys"].Keys
      && (forall k :: k in file.sections["hotkeys"] ==> cfg[k] == file.sections["hotkeys"][k])
      && (forall k :: k in file.defaultSection && k !in file.sections["hotkeys"] ==>
            cfg[k] == file.defaultSection[k])
      && (forall k :: k in defaults && k !in file.defaultSection && k !in file.sections["hotkeys"] ==>
            cfg[k] == defaults[k])
  {
    var d := HotkeysOptions(file).value;
    ItemsPlain(d);
  }

  /**
   * A hotkey written with a bare '%' (`add_hotkey = ctrl+%`) makes
   * `parser.items` raise, so the whole file is ignored for the defaults.
   */
  lemma BarePercentGivesDefaults(defaultSection: Config, section: Config, defaults: Config)
    requires ADD_HOTKEY in section && section[ADD_HOTKEY] == "ctrl+%"
    ensures LoadIniConfig(Ini(defaultSection, map["hotkeys" := section]), defaults) == defaults
  {
    var file := Ini(defaultSection, map["hotkeys" := section]);
    var d := HotkeysOptions(file).value;
    assert d[ADD_HOTKEY] == "ctrl+" + "%";
    TrailingPercentRaises("ctrl+", d);
  }

  /** Python's `text or fallback` for strings: the fallback replaces only "". */
  function OrDefault(text: string, fallback: string): (r: string)
    ensures r == text || (text == [] && r == fallback)
    ensures r == [] ==> fallback == []
  {
    if text == [] then fallback else text
  }

  /**
   * `apply_settings` on the settings record: the download folder is taken
   * verbatim from its field (even when empty), an empty hotkey field is
   * replaced by the default combo, and every other key is kept.
   */
  function ApplySettings(cfg: Config, path: string, addField: string, downloadField: string): (r: Config)
    ensures r.Keys == cfg.Keys + {DOWNLOAD_PATH, ADD_HOTKEY, DOWNLOAD_HOTKEY}
    ensures r[DOWNLOAD_PATH] == path
    ensures r[ADD_HOTKEY] == (if addField == [] then DEFAULT_ADD_HOTKEY else addField)
    ensures r[DOWNLOAD_HOTKEY] == (if downloadField == [] then DEFAULT_DOWNLOAD_HOTKEY else downloadField)
    ensures forall k :: k in cfg && k !in {DOWNLOAD_PATH, ADD_HOTKEY, DOWNLOAD_HOTKEY} ==> r[k] == cfg[k]
  {
    cfg[DOWNLOAD_PATH := path]
       [ADD_HOTKEY := OrDefault(addField, DEFAULT_ADD_HOTKEY)]
       [DOWNLOAD_HOTKEY := OrDefault(downloadField, DEFAULT_DOWNLOAD_HOTKEY)]
  }

  /** After applying the form, both hotkey combos are non-empty. */
  lemma AppliedHotkeysNonEmpty(cfg: Config, path: string, addField: string, downloadField: string)
    ensures var r := ApplySettings(cfg, path, addField, downloadField);
      r[ADD_HOTKEY] != [] && r[DOWNLOAD_HOTKEY] != []
  {
  }

  /** Applying the same form twice is applying it once. */
  lemma ApplySettingsIdempotent(cfg: Config, path: string, addField: string, downloadField: string)
    ensures var r := ApplySettings(cfg, path, addField, downloadField);
      ApplySettings(r, path, addField, downloadField) == r
  {
  }
}
