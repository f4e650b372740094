/**
 * The link queue of the two gui_downloader.py revisions (the one under
 * scripts/, which binds hotkeys through `HotkeyManager`, and the root one,
 * which calls the `keyboard` library directly): the window's `App` object
 * and the console-only mode of `run_headless`. The hotkey state of `App` is
 * the scripts/ revision's `HotkeyManager`; the root revision is covered for
 * its queue and config operations only.
 *
 * The clipboard text, the form fields and the outcome of each download are
 * parameters. A download is an oracle on the URL: `true` when `download_url`
 * returns, `false` when it raises.
 */
module Gui {
  import opened Wrappers
  import opened Text
  import opened ListOps
  import Config
  import opened Hotkeys

  /** A queued URL as the add operations produce it: non-empty, with no whitespace at either end. */
  predicate CleanUrl(u: string) {
    u != [] && !IsSpace(u[0]) && !IsSpace(u[|u| - 1])
  }

  /** The clipboard (or entry) text as the queue would take it, if at all. */
  function Grab(text: string): (r: Option<string>)
    ensures r.Some? <==> !AllSpace(text)
    ensures r.Some? ==> r.value == Strip(text) && CleanUrl(r.value)
  {
    StripEmptyIff(text);
    StripSpec(text);
    if Strip(text) == [] then None else Some(Strip(text))
  }

  /** The two callbacks `register_hotkeys` binds. */
  datatype Action = AddFromClipboard | StartDownloads

  /**
   * `register_hotkeys`: the add combo, then the download combo, both inside
   * one `try`; when the first registration raises, the second is not
   * attempted.
   */
  function RegisterBoth(r: Registry<Action>, p: Platform, addCombo: string, downloadCombo: string)
    : (Registry<Action>, Binding, Option<Binding>)
  {
    var (r1, b1) := RegisterStep(r, p, addCombo, AddFromClipboard);
    if b1.HookRaised? then (r1, b1, None)
    else
      var (r2, b2) := RegisterStep(r1, p, downloadCombo, StartDownloads);
      (r2, b1, Some(b2))
  }

  /**
   * Re-registering after `unregister_all` leaves only the new bindings: at
   * most one native id per callback and only hooks on the two new combos.
   */
  lemma ReRegisterLeavesOnlyNew(r: Registry<Action>, p: Platform, addCombo: string, downloadCombo: string)
    requires Wf(r, p)
    ensures var (r', b1, b2) := RegisterBoth(UnregisterAllStep(r, p), p, addCombo, downloadCombo);
      && Wf(r', p)
      && |r'.ids| <= 2
      && (forall id :: id in r'.ids ==> (r'.ids[id] == AddFromClipboard <==> b1 == Native(id)))
      && (forall id :: id in r'.ids && r'.ids[id] == StartDownloads ==> b2 == Some(Native(id)))
      && (forall h :: h in r'.hooks ==> h == Hook(addCombo, AddFromClipboard) || h == Hook(downloadCombo, StartDownloads))
      && (b1.HookRaised? ==> b2.None? && r'.ids == map[] && r'.hooks == [])
  {
    var r0 := UnregisterAllStep(r, p);
    UnregisterAllClears(r, p);
    RegisterOutcome(r0, p, addCombo, AddFromClipboard);
    RegisterKeepsWf(r0, p, addCombo, AddFromClipboard);
    var (r1, b1) := RegisterStep(r0, p, addCombo, AddFromClipboard);
    assert r1.ids == if b1.Native? then map[b1.id := AddFromClipboard] else map[];
    assert r1.hooks == if b1.Hooked? then [Hook(addCombo, AddFromClipboard)] else [];
    if b1.HookRaised? {
      assert RegisterBoth(r0, p, addCombo, downloadCombo) == (r1, b1, None);
    } else {
      RegisterOutcome(r1, p, downloadCombo, StartDownloads);
      RegisterKeepsWf(r1, p, downloadCombo, StartDownloads);
      var (r2, b2) := RegisterStep(r1, p, downloadCombo, StartDownloads);
      assert RegisterBoth(r0, p, addCombo, downloadCombo) == (r2, b1, Some(b2));
      assert r2.ids == if b2.Native? then r1.ids[b2.id := StartDownloads] else r1.ids;
      assert |r2.ids| <= |r1.ids| + 1 <= 2;
      assert forall h :: h in r2.hooks ==> h in r1.hooks || h == Hook(downloadCombo, StartDownloads);
    }
  }

  /**
   * The window. `links` is the queue and `listbox` the list widget's rows,
   * which every operation keeps equal to it; `entry` is the link entry's
   * text and `cfg` the settings record; `hotkeys` is the shared manager.
   */
  class App {
    var links: seq<string>
    var listbox: seq<string>
    var entry: string
    var cfg: Config.Config
    const hotkeys: HotkeyManager<Action>

    ghost predicate Valid()
      reads this, hotkeys
    {
      && listbox == links
      && Config.ADD_HOTKEY in cfg && Config.DOWNLOAD_HOTKEY in cfg
      && hotkeys.Valid()
    }

    /** `__init__`: an empty queue, the loaded settings, and the hotkeys bound. */
    constructor (cfg: Config.Config, hotkeys: HotkeyManager<Action>)
      requires Config.ADD_HOTKEY in cfg && Config.DOWNLOAD_HOTKEY in cfg
      requires hotkeys.Valid()
      modifies hotkeys
      ensures Valid()
      ensures links == [] && entry == [] && this.cfg == cfg && this.hotkeys == hotkeys
      ensures hotkeys.State() == RegisterBoth(old(hotkeys.State()), hotkeys.platform,
        cfg[Config.ADD_HOTKEY], cfg[Config.DOWNLOAD_HOTKEY]).0
    {
      links := [];
      listbox := [];
      entry := [];
      this.cfg := cfg;
      this.hotkeys := hotkeys;
      new;
      var _, _ := RegisterHotkeys();
    }

    /** `register_hotkeys`. */
    method RegisterHotkeys() returns (add: Binding, download: Option<Binding>)
      requires Valid()
      modifies hotkeys
      ensures Valid()
      ensures (hotkeys.State(), add, download) == RegisterBoth(old(hotkeys.State()), hotkeys.platform,
        cfg[Config.ADD_HOTKEY], cfg[Config.DOWNLOAD_HOTKEY])
    {
      add := hotkeys.Register(cfg[Config.ADD_HOTKEY], AddFromClipboard);
      if add.HookRaised? {
        // The exception leaves the `try`; it is logged.
        download := None;
      } else {
        var b := hotkeys.Register(cfg[Config.DOWNLOAD_HOTKEY], Action.StartDownloads);
        download := Some(b);
      }
    }

    /**
     * `apply_settings`: release every hotkey, take the form into the
     * settings record, create the download folder, and bind the (possibly
     * new) combos again. `folderMade` says whether `ensure_download_dir`
     * succeeds for the new path; when it raises (an empty path, say), the
     * exception leaves the method with the record already changed and no
     * hotkey bound, and `applied` is false.
     */
    method ApplySettings(pathField: string, addField: string, downloadField: string, folderMade: bool)
      returns (applied: bool)
      requires Valid()
      modifies this, hotkeys
      ensures Valid()
      ensures applied == folderMade
      ensures cfg == Config.ApplySettings(old(cfg), pathField, addField, downloadField)
      ensures links == old(links) && entry == old(entry)
      ensures applied ==> hotkeys.State() == RegisterBoth(UnregisterAllStep(old(hotkeys.State()), hotkeys.platform),
        hotkeys.platform, cfg[Config.ADD_HOTKEY], cfg[Config.DOWNLOAD_HOTKEY]).0
      ensures !applied ==> hotkeys.State() == UnregisterAllStep(old(hotkeys.State()), hotkeys.platform)
      ensures !applied ==> hotkeys.State().ids == map[] && hotkeys.State().hooks == []
    {
      ghost var before := hotkeys.State();
      var _ := hotkeys.UnregisterAll();
      UnregisterAllClears(before, hotkeys.platform);
      cfg := Config.ApplySettings(cfg, pathField, addField, downloadField);
      if !folderMade {
        // `ensure_download_dir` raised: `save_config` and `register_hotkeys` are not reached.
        return false;
      }
      applied := true;
      var _, _ := RegisterHotkeys();
    }

    /** `add_from_entry`: the stripped entry text joins the queue and the entry is cleared. */
    method AddFromEntry()
      requires Valid()
      modifies this
      ensures Valid()
      ensures Grab(old(entry)).None? ==> links == old(links) && entry == old(entry)
      ensures Grab(old(entry)).Some? ==> links == old(links) + [Grab(old(entry)).value] && entry == []
      ensures cfg == old(cfg)
    {
      var url := Grab(entry);
      if url.None? {
        return;
      }
      links := links + [url.value];
      listbox := listbox + [url.value];
      entry := [];
    }

    /** `_read_clipboard`, given what `pyperclip.paste()` returned. */
    method ReadClipboard(clip: string) returns (added: bool)
      requires Valid()
      modifies this
      ensures Valid()
      ensures added <==> !AllSpace(clip)
      ensures links == old(links) + (if added then [Strip(clip)] else [])
      ensures entry == old(entry) && cfg == old(cfg)
    {
      var url := Grab(clip);
      added := url.Some?;
      if added {
        links := links + [url.value];
        listbox := listbox + [url.value];
      }
    }

    /**
     * `remove_selected`: the selected rows are deleted from the widget and
     * the queue, highest index first, so that no deletion shifts a row still
     * to be deleted.
     */
    method RemoveSelected(sel: seq<nat>)
      requires Valid() && Selection(sel, |links|)
      modifies this
      ensures Valid()
      ensures links == Kept(old(links), Chosen(sel))
      ensures |links| == |old(links)| - |sel|
      ensures entry == old(entry) && cfg == old(cfg)
    {
      ghost var s := links;
      var k := |sel|;
      assert Chosen(sel[k..]) == {};
      KeptNothing(s);
      while k > 0
        invariant 0 <= k <= |sel|
        invariant links == Kept(s, Chosen(sel[k..]))
        invariant listbox == links
        invariant |links| == |s| - (|sel| - k)
        invariant entry == old(entry) && cfg == old(cfg)
      {
        k := k - 1;
        var i := sel[k];
        ghost var later := Chosen(sel[k + 1..]);
        assert forall d :: d in later ==> d > i;
        KeptDeleteStep(s, later, i);
        assert Chosen(sel[k..]) == later + {i};
        listbox := listbox[..i] + listbox[i + 1..];
        links := links[..i] + links[i + 1..];
      }
      assert sel[0..] == sel;
    }

    /** `clear_list`. */
    method ClearList()
      requires Valid()
      modifies this
      ensures Valid()
      ensures links == [] && listbox == []
      ensures entry == old(entry) && cfg == old(cfg)
    {
      listbox := [];
      links := [];
    }

    /**
     * `_download_worker`: every URL of a snapshot of the queue is tried in
     * order, a failure only produces an error box, and after each attempt
     * the front row is removed. `arrivals[k]` is what another thread's
     * `_read_clipboard` appends during the k-th download; those URLs stay
     * queued for the next run.
     */
    method DownloadWorker(download: string -> bool, arrivals: seq<seq<string>>) returns (failed: seq<string>)
      requires Valid()
      modifies this
      ensures Valid()
      ensures links == ArrivedBefore(arrivals, |old(links)|)
      ensures failed == Failures(old(links), download)
      ensures entry == old(entry) && cfg == old(cfg)
    {
      var snapshot := links;
      failed := [];
      var idx := 0;
      while idx < |snapshot|
        invariant 0 <= idx <= |snapshot|
        invariant links == snapshot[idx..] + ArrivedBefore(arrivals, idx)
        invariant listbox == links
        invariant failed == Failures(snapshot[..idx], download)
        invariant entry == old(entry) && cfg == old(cfg)
      {
        var url := snapshot[idx];
        FailuresConcat(snapshot[..idx], [url], download);
        assert snapshot[..idx + 1] == snapshot[..idx] + [url];
        if !download(url) {
          failed := failed + [url];
        }
        // Meanwhile another thread may append.
        var more := Arrival(arrivals, idx);
        WorkerStep(links, snapshot, idx, arrivals);
        links := links + more;
        listbox := listbox + more;
        listbox := listbox[1..];
        links := links[1..];
        idx := idx + 1;
      }
      assert snapshot[..idx] == snapshot;
    }

    /**
     * `start_downloads`: nothing when the queue is empty; otherwise the
     * worker runs over it (on its own thread in the source).
     */
    method StartDownloads(download: string -> bool, arrivals: seq<seq<string>>)
      returns (started: bool, failed: seq<string>)
      requires Valid()
      modifies this
      ensures Valid()
      ensures started <==> old(links) != []
      ensures !started ==> links == old(links) && failed == []
      ensures started ==> links == ArrivedBefore(arrivals, |old(links)|) && failed == Failures(old(links), download)
      ensures entry == old(entry) && cfg == old(cfg)
    {
      if links == [] {
        return false, [];
      }
      started := true;
      failed := DownloadWorker(download, arrivals);
    }

    /** What the listener thread runs for a hotkey message carrying `id`. */
    method OnHotkey(id: nat) returns (action: Option<Action>)
      ensures action == LookupId(hotkeys.State(), id)
    {
      action := hotkeys.Lookup(id);
    }
  }

  /**
   * One step of the window's worker: after the k-th download's arrivals
   * are appended, dropping the front row leaves the rest of the snapshot
   * followed by everything that arrived so far.
   */
  lemma WorkerStep(links: seq<string>, snapshot: seq<string>, k: nat, arrivals: seq<seq<string>>)
    requires k < |snapshot|
    requires links == snapshot[k..] + ArrivedBefore(arrivals, k)
    ensures var l := links + Arrival(arrivals, k);
      && |l| > 0
      && l[1..] == snapshot[k + 1..] + ArrivedBefore(arrivals, k + 1)
  {
    var more := Arrival(arrivals, k);
    var before := ArrivedBefore(arrivals, k);
    assert ArrivedBefore(arrivals, k + 1) == before + more;
    var l := links + more;
    assert l == [snapshot[k]] + (snapshot[k + 1..] + (before + more));
  }

  /** One console line of the headless mode. */
  datatype Console =
    | Added(url: string)
    | ClipboardEmpty
    | QueueEmpty
    | Downloading(url: string)
    | FailedToDownload(url: string)

  /** The lines a drain of `queue` prints. */
  function DrainLog(queue: seq<string>, download: string -> bool): seq<Console> {
    if queue == [] then [] else Lines(queue[0], download) + DrainLog(queue[1..], download)
  }

  /** The lines one download prints: its announcement, then the failure if it fails. */
  function Lines(url: string, download: string -> bool): seq<Console> {
    [Downloading(url)] + (if download(url) then [] else [FailedToDownload(url)])
  }

  /** The URLs a log announces as being downloaded. */
  function Attempts(log: seq<Console>): seq<string> {
    if log == [] then []
    else (if log[0].Downloading? then [log[0].url] else []) + Attempts(log[1..])
  }

  /** The URLs a log reports as failed. */
  function Reported(log: seq<Console>): seq<string> {
    if log == [] then []
    else (if log[0].FailedToDownload? then [log[0].url] else []) + Reported(log[1..])
  }

  lemma {:induction false} DrainLogConcat(a: seq<string>, b: seq<string>, download: string -> bool)
    ensures DrainLog(a + b, download) == DrainLog(a, download) + DrainLog(b, download)
  {
    if a != [] {
      var c := a + b;
      assert c[0] == a[0];
      assert c[1..] == a[1..] + b;
      DrainLogConcat(a[1..], b, download);
    } else {
      assert a + b == b;
    }
  }

  lemma {:induction false} AttemptsConcat(a: seq<Console>, b: seq<Console>)
    ensures Attempts(a + b) == Attempts(a) + Attempts(b)
  {
    if a != [] {
      var c := a + b;
      assert c[0] == a[0];
      assert c[1..] == a[1..] + b;
      AttemptsConcat(a[1..], b);
    } else {
      assert a + b == b;
    }
  }

  lemma {:induction false} ReportedConcat(a: seq<Console>, b: seq<Console>)
    ensures Reported(a + b) == Reported(a) + Reported(b)
  {
    if a != [] {
      var c := a + b;
      assert c[0] == a[0];
      assert c[1..] == a[1..] + b;
      ReportedConcat(a[1..], b);
    } else {
      assert a + b == b;
    }
  }

  /**
   * A drain announces every URL of the queue, first in first out, whatever
   * fails, and reports exactly the failed ones.
   */
  lemma {:induction false} DrainLogFifo(queue: seq<string>, download: string -> bool)
    ensures Attempts(DrainLog(queue, download)) == queue
    ensures Reported(DrainLog(queue, download)) == Failures(queue, download)
  {
    if queue != [] {
      var u := queue[0];
      var head := Lines(u, download);
      DrainLogFifo(queue[1..], download);
      AttemptsConcat(head, DrainLog(queue[1..], download));
      ReportedConcat(head, DrainLog(queue[1..], download));
      assert Attempts(head) == [u];
      assert Reported(head) == (if download(u) then [] else [u]);
      assert queue == [u] + queue[1..];
    }
  }

  /** The console-only mode's queue (the `links` list `run_headless` closes over). */
  class Headless {
    var links: seq<string>

    constructor ()
      ensures links == []
    {
      links := [];
    }

    /** `read_clipboard`: append the stripped text, or say that the clipboard is empty. */
    method ReadClipboard(clip: string) returns (line: Console)
      modifies this
      ensures AllSpace(clip) ==> line == ClipboardEmpty && links == old(links)
      ensures !AllSpace(clip) ==> line == Added(Strip(clip)) && links == old(links) + [Strip(clip)]
    {
      var url := Grab(clip);
      if url.Some? {
        links := links + [url.value];
        line := Added(url.value);
      } else {
        line := ClipboardEmpty;
      }
    }

    /**
     * `start_downloads`: with an empty queue only a message; otherwise pop
     * and download from the front until the queue is empty, a failure
     * printing a line and nothing more. `arrivals[k]` is what a hotkey
     * appends during the k-th download: unlike the window's worker, the
     * drain downloads those too. `steps` is the number of downloads made.
     */
    method StartDownloads(download: string -> bool, arrivals: seq<seq<string>>)
      returns (log: seq<Console>, steps: nat)
      modifies this
      ensures links == []
      ensures old(links) == [] ==> log == [QueueEmpty] && steps == 0
      ensures old(links) != [] ==>
        var served := old(links) + ArrivedBefore(arrivals, steps);
        |served| == steps && log == DrainLog(served, download)
    {
      if links == [] {
        return [QueueEmpty], 0;
      }
      ghost var q0 := links;
      log := [];
      steps := 0;
      while links != []
        invariant steps <= |q0 + ArrivedBefore(arrivals, steps)|
        invariant links == (q0 + ArrivedBefore(arrivals, steps))[steps..]
        invariant log == DrainLog((q0 + ArrivedBefore(arrivals, steps))[..steps], download)
        decreases |links| + Pending(arrivals, steps)
      {
        ghost var log0 := log;
        DrainStep(q0, arrivals, steps, links);
        DrainLogSnoc((q0 + ArrivedBefore(arrivals, steps))[..steps], links[0], download);
        var url := links[0];
        links := links[1..];
        log := log + [Downloading(url)];
        if !download(url) {
          log := log + [FailedToDownload(url)];
        }
        assert log == log0 + Lines(url, download);
        // Meanwhile a hotkey may append.
        var more := Arrival(arrivals, steps);
        links := links + more;
        steps := steps + 1;
      }
      assert (q0 + ArrivedBefore(arrivals, steps))[..steps] == q0 + ArrivedBefore(arrivals, steps);
    }
  }

  /**
   * One step of the drain, with `served` the initial queue followed by
   * everything that arrived during the first `k` downloads: the front URL is
   * the k-th served one, and after the k-th arrivals the queue is what is
   * left of the first `k + 1` steps; the measure of the loop goes down.
   */
  lemma DrainStep(q0: seq<string>, arrivals: seq<seq<string>>, k: nat, links: seq<string>)
    requires k <= |q0 + ArrivedBefore(arrivals, k)|
    requires links != [] && links == (q0 + ArrivedBefore(arrivals, k))[k..]
    ensures var next := q0 + ArrivedBefore(arrivals, k + 1);
      var links' := links[1..] + Arrival(arrivals, k);
      && k + 1 <= |next|
      && links' == next[k + 1..]
      && next[..k + 1] == (q0 + ArrivedBefore(arrivals, k))[..k] + [links[0]]
      && |links'| + Pending(arrivals, k + 1) < |links| + Pending(arrivals, k)
  {
    var served := q0 + ArrivedBefore(arrivals, k);
    var more := Arrival(arrivals, k);
    assert links[0] == served[k];
    assert q0 + ArrivedBefore(arrivals, k + 1) == served + more;
    assert (served + more)[..k + 1] == served[..k] + [served[k]];
    assert (served + more)[k + 1..] == served[k + 1..] + more;
    assert links[1..] == served[k + 1..];
    if k < |arrivals| {
      assert Pending(arrivals, k) == |more| + Pending(arrivals, k + 1);
    } else {
      assert more == [] && Pending(arrivals, k) == 0 == Pending(arrivals, k + 1);
    }
  }

  /** The lines of one more download extend the log of a drain. */
  lemma DrainLogSnoc(queue: seq<string>, url: string, download: string -> bool)
    ensures DrainLog(queue + [url], download) == DrainLog(queue, download) + Lines(url, download)
  {
    assert DrainLog([url], download) == Lines(url, download);
    DrainLogConcat(queue, [url], download);
  }

  /**
   * Without interference the drain makes one download per queued URL and
   * announces exactly the queued URLs, in order, reporting the failed ones:
   * the log `Headless.StartDownloads` promises when nothing arrives.
   */
  lemma DrainAloneServesQueue(queue: seq<string>, steps: nat, download: string -> bool)
    requires |queue + ArrivedBefore([], steps)| == steps
    ensures steps == |queue|
    ensures Attempts(DrainLog(queue + ArrivedBefore([], steps), download)) == queue
    ensures Reported(DrainLog(queue + ArrivedBefore([], steps), download)) == Failures(queue, download)
  {
    NothingArrives(steps);
    assert queue + ArrivedBefore([], steps) == queue;
    DrainLogFifo(queue, download);
  }
}
