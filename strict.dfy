/**
 * main_windows_strict.py: the tray script that collects copied links in
 * `download-list.txt` and, on demand, routes each one to the right
 * downloader and empties the list.
 *
 * The downloads themselves are not modelled: each downloader catches every
 * exception it meets, so what matters here is which one a URL is routed to.
 * The only exception that can leave `handle_url` is the `ValueError` of
 * `urlparse`, which ends the worker early.
 */
module Strict {
  import opened Wrappers
  import opened Text
  import opened Url
  import opened ListFile

  /** The substring that marks a playlist, looked for in the whole URL. */
  const PLAYLIST_MARK := "youtube.com/playlist"

  /** The branch of `handle_url` a URL takes: which downloader and folder it goes to. */
  datatype Route =
    | Playlist      // download_playlist into Videos/Playlist Videos
    | Video         // download_video into Videos
    | Pinterest     // download_pinterest_image into Pictures
    | Unsupported   // logged and skipped

  /**
   * The if/elif chain of `handle_url` for a URL and its lower-cased host:
   * the playlist test looks at the whole URL and comes first, the other
   * two look at the host only.
   */
  function Classify(url: string, host: string): Route
  {
    if Contains(url, PLAYLIST_MARK) then Playlist
    else if Contains(host, "youtube.com") || Contains(host, "youtu.be") then Video
    else if Contains(host, "pinterest.com") then Pinterest
    else Unsupported
  }

  /**
   * The three tests read as conditions: the playlist mark alone decides
   * the first route, and each later route needs every earlier test to fail.
   */
  lemma ClassifyCases(url: string, host: string)
    ensures Classify(url, host) == Playlist <==> Contains(url, PLAYLIST_MARK)
    ensures Classify(url, host) == Video <==>
      !Contains(url, PLAYLIST_MARK) && (Contains(host, "youtube.com") || Contains(host, "youtu.be"))
    ensures Classify(url, host) == Pinterest <==>
      && !Contains(url, PLAYLIST_MARK)
      && !Contains(host, "youtube.com") && !Contains(host, "youtu.be")
      && Contains(host, "pinterest.com")
  {
  }

  /** `handle_url`: the hostname is computed first, so a URL `urlparse` rejects raises on every branch. */
  function HandleUrl(url: string, lib: UrlLib): Result<Route, UrlError> {
    match Hostname(url, lib)
    case Err(e) => Err(e)
    case Ok(host) => Ok(Classify(url, host))
  }

  /**
   * `handle_url` raises exactly when `urlparse` does. Otherwise the mark
   * anywhere in the URL means a playlist; a video needs no mark and
   * "youtube.com" or "youtu.be" in the host; Pinterest needs neither and
   * "pinterest.com" in the host; anything else is unsupported.
   */
  lemma HandleUrlRoutes(url: string, lib: UrlLib)
    ensures HandleUrl(url, lib).Err? <==> Hostname(url, lib).Err?
    ensures Hostname(url, lib).Ok? ==> var host := Hostname(url, lib).value;
      && (HandleUrl(url, lib) == Ok(Playlist) <==> Contains(url, PLAYLIST_MARK))
      && (HandleUrl(url, lib) == Ok(Video) <==>
            !Contains(url, PLAYLIST_MARK) && (Contains(host, "youtube.com") || Contains(host, "youtu.be")))
      && (HandleUrl(url, lib) == Ok(Pinterest) <==>
            && !Contains(url, PLAYLIST_MARK)
            && !Contains(host, "youtube.com") && !Contains(host, "youtu.be")
            && Contains(host, "pinterest.com"))
  {
    if Hostname(url, lib).Ok? {
      ClassifyCases(url, Hostname(url, lib).value);
    }
  }

  /** Whatever the host, a URL holding the playlist mark is downloaded as a playlist. */
  lemma PlaylistTestFirst(url: string, lib: UrlLib)
    requires Hostname(url, lib).Ok? && Contains(url, PLAYLIST_MARK)
    ensures HandleUrl(url, lib) == Ok(Playlist)
  {
  }

  /**
   * The playlist test is a plain substring test on the whole URL, so the
   * mark anywhere in the path or query selects it, on any site whose name
   * `urlsplit` accepts.
   */
  lemma PlaylistMarkAnywhere(scheme: string, host: string, path: string, lib: UrlLib)
    requires IsScheme(scheme) && PlainHost(host)
    requires !AnyUnsafe(scheme + "://" + host + path)
    requires path == [] || IsNetlocEnd(path[0])
    requires !NfkcRejects(host, lib.nfkc)
    requires Contains(path, PLAYLIST_MARK)
    ensures HandleUrl(scheme + "://" + host + path, lib) == Ok(Playlist)
  {
    var url := scheme + "://" + host + path;
    HostnameOfPlain(scheme, host, path, lib);
    ContainsAfter(scheme + "://" + host, path, PLAYLIST_MARK);
    PlaylistTestFirst(url, lib);
  }

  /**
   * For a URL of the usual shape the route is `Classify` of the URL and its
   * host, lower-cased, whatever the user information and the port, as long
   * as the network location passes the normalisation check (every ASCII
   * one does): past the playlist test the host alone decides, by
   * substring, so any host containing "youtu.be" is a video site.
   */
  lemma RouteByHost(scheme: string, user: string, host: string, port: string, path: string, lib: UrlLib)
    requires IsScheme(scheme) && PlainHost(host)
    requires !AnyUnsafe(scheme + "://" + (user + host + port) + path)
    requires user == [] || user[|user| - 1] == '@'
    requires forall i :: 0 <= i < |user| ==> user[i] !in "[]/?#"
    requires port == [] || port[0] == ':'
    requires forall i :: 0 <= i < |port| ==> port[i] !in "@[]/?#"
    requires path == [] || IsNetlocEnd(path[0])
    requires !NfkcRejects(user + host + port, lib.nfkc)
    ensures HandleUrl(scheme + "://" + (user + host + port) + path, lib)
      == Ok(Classify(scheme + "://" + (user + host + port) + path, Lower(host)))
  {
    HostnameOfCanonical(scheme, user, host, port, path, lib);
  }

  /** A URL pasted without a scheme has no host: it is unsupported unless it holds the playlist mark. */
  lemma SchemelessUnsupported(url: string, lib: UrlLib)
    requires url != [] && !IsC0OrSpace(url[0]) && url[0] != '/'
    requires ':' !in url && !AnyUnsafe(url)
    requires !Contains(url, PLAYLIST_MARK)
    ensures HandleUrl(url, lib) == Ok(Unsupported)
  {
    NoAuthorityNoHost(url, lib);
  }

  /** A bracket without its partner in the network location raises, even for a playlist URL. */
  lemma UnbalancedBracketRaises(scheme: string, netloc: string, path: string, lib: UrlLib)
    requires IsScheme(scheme) && !AnyUnsafe(scheme + "://" + netloc + path)
    requires forall i :: 0 <= i < |netloc| ==> !IsNetlocEnd(netloc[i])
    requires path == [] || IsNetlocEnd(path[0])
    requires Unbalanced(netloc)
    ensures HandleUrl(scheme + "://" + netloc + path, lib) == Err(InvalidIPv6)
  {
    UnbalancedRaises(scheme, netloc, path, lib);
  }

  /**
   * A full-width solidus (U+FF0F) normalises to '/', so a link such as
   * `https://youtube.com\uff0fwatch` raises instead of being downloaded,
   * whatever its path.
   */
  lemma FullwidthSolidusRaises(path: string, lib: UrlLib)
    requires !AnyUnsafe("https://" + "youtube.com\U{FF0F}watch" + path)
    requires path == [] || IsNetlocEnd(path[0])
    requires lib.nfkc("youtube.com\U{FF0F}watch") == "youtube.com/watch"
    ensures HandleUrl("https://" + "youtube.com\U{FF0F}watch" + path, lib) == Err(InvalidNfkc)
  {
    var netloc := "youtube.com\U{FF0F}watch";
    assert "https://" + netloc + path == "https" + "://" + netloc + path;
    assert IsScheme("https") by {
      assert forall i :: 0 <= i < 5 ==> IsSchemeChar("https"[i]);
    }
    assert forall i :: 0 <= i < |netloc| ==> !IsNetlocEnd(netloc[i]);
    HostnameOfParts("https", netloc, path, lib);
    FullwidthSolidusRejected(lib);
  }

  /**
   * `https://u[1]@youtube.com/watch` and the like raise instead of being
   * routed to the video downloader: brackets in the user information send
   * the host name to `ipaddress`, which does not read it as IPv6.
   */
  lemma UserinfoBracketAborts(path: string, lib: UrlLib)
    requires !AnyUnsafe("https://" + "u[1]@youtube.com" + path)
    requires path == [] || IsNetlocEnd(path[0])
    requires lib.ipAddress("youtube.com") != Some(IPv6)
    ensures HandleUrl("https://" + "u[1]@youtube.com" + path, lib) == Err(InvalidBracketedHost)
  {
    var netloc := "u[1]@youtube.com";
    assert "https://" + netloc + path == "https" + "://" + netloc + path;
    assert IsScheme("https") by {
      assert forall i :: 0 <= i < 5 ==> IsSchemeChar("https"[i]);
    }
    assert forall i :: 0 <= i < |netloc| ==> !IsNetlocEnd(netloc[i]);
    HostnameOfParts("https", netloc, path, lib);
    UserinfoBracketRaises(lib);
  }

  /** The network location `youtube.com\uff0fwatch` fails the normalisation check. */
  lemma FullwidthSolidusRejected(lib: UrlLib)
    requires lib.nfkc("youtube.com\U{FF0F}watch") == "youtube.com/watch"
    ensures HostOfNetloc("youtube.com\U{FF0F}watch", lib) == Err(InvalidNfkc)
  {
    var netloc := "youtube.com\U{FF0F}watch";
    assert netloc[11] as int == 0xFF0F;
    NormalisedDelimiterRejected(netloc, 11, lib);
  }

  /** What `add_link_from_clipboard` did with the copied text. */
  datatype AddOutcome =
    | NothingCopied           // the copied text was empty or whitespace
    | AlreadyListed(url: string)
    | Appended(url: string)

  /**
   * `add_link_from_clipboard` on the list file, given the copied text: the
   * stripped text is written at the end of the file, with a line break
   * after it, unless it is empty or already one of the file's stripped
   * lines.
   */
  function AddLink(file: Option<seq<string>>, clip: string): (Option<seq<string>>, AddOutcome) {
    var url := Strip(clip);
    if url == [] then (file, NothingCopied)
    else if url in Urls(Lines(file)) then (file, AlreadyListed(url))
    else (Some(Lines(file) + Written(url)), Appended(url))
  }

  /**
   * Nothing is added for a blank copy or a link already listed (the file,
   * if missing, stays missing); a new link is written at the end.
   */
  lemma AddLinkOutcome(file: Option<seq<string>>, clip: string)
    ensures var r := AddLink(file, clip);
      && (r.1 == NothingCopied <==> AllSpace(clip))
      && (!r.1.Appended? ==> r.0 == file)
      && (r.1.AlreadyListed? ==> r.1.url == Strip(clip) && Strip(clip) in Urls(Lines(file)))
      && (r.1.Appended? ==>
        && r.1.url == Strip(clip) && r.1.url != []
        && r.1.url !in Urls(Lines(file))
        && r.0 == Some(Lines(file) + Written(r.1.url)))
  {
    StripEmptyIff(clip);
  }

  /**
   * Adding a single-line link keeps the list free of repeats and puts the
   * new link last.
   */
  lemma AddLinkKeepsNoDup(file: Option<seq<string>>, clip: string)
    requires NoDup(Urls(Lines(file)))
    requires NL !in Strip(clip)
    ensures var (file', outcome) := AddLink(file, clip);
      && NoDup(Urls(Lines(file')))
      && Urls(Lines(file')) == Urls(Lines(file)) + (if outcome.Appended? then [outcome.url] else [])
  {
    var (file', outcome) := AddLink(file, clip);
    if outcome.Appended? {
      var u := outcome.url;
      StripIdempotent(clip);
      WrittenSingle(u);
      NonBlankConcat(Lines(file), [u], Strip);
      NonBlankSingle(u, Strip);
      var s := Urls(Lines(file)) + [u];
      assert forall i :: 0 <= i < |Urls(Lines(file))| ==> s[i] == Urls(Lines(file))[i];
    }
  }

  /**
   * The duplicate check compares the whole copied text with whole lines,
   * so a copied text of two lines can bring a link in a second time.
   */
  lemma MultiLineClipRepeats(x: string, y: string)
    requires NL !in x && x != [] && Strip(x) == x
    requires NL !in y && y != [] && Strip(y) == y
    ensures var (file', outcome) := AddLink(Some([x]), y + [NL] + x);
      && outcome == Appended(y + [NL] + x)
      && Urls(Lines(file')) == [x, y, x]
  {
    var clip := y + [NL] + x;
    assert clip[0] == y[0] && clip[|clip| - 1] == x[|x| - 1];
    StripKeeps(clip);
    NonBlankSingle(x, Strip);
    assert |clip| > |x|;
    WrittenTwoLines(y, x);
    NonBlankConcat([x], [y, x], Strip);
    NonBlankConcat([y], [x], Strip);
    NonBlankSingle(y, Strip);
    assert [x] + [y, x] == [x, y, x];
    assert [y] + [x] == [y, x];
  }

  /** What the clipboard held, when anything, during step `k` of a download run. */
  function ClipAt(adds: seq<string>, k: nat): string {
    if k < |adds| then adds[k] else []
  }

  /**
   * The list file after the add-link hotkey has fired during the first `n`
   * download steps, with the texts `adds` copied (an empty text is a key
   * press that adds nothing).
   */
  function AfterAdds(file: Option<seq<string>>, adds: seq<string>, n: nat): Option<seq<string>> {
    if n == 0 then file else AddLink(AfterAdds(file, adds, n - 1), ClipAt(adds, n - 1)).0
  }

  /** Without key presses the list stays as it was. */
  lemma {:induction false} NoAddsNoChange(file: Option<seq<string>>, n: nat)
    ensures AfterAdds(file, [], n) == file
  {
    if n > 0 {
      NoAddsNoChange(file, n - 1);
      assert AllSpace(ClipAt([], n - 1));
    }
  }

  /** Adding links only ever appends lines: what was listed at step `m` is still listed, first, at step `n`. */
  lemma {:induction false} AfterAddsExtends(file: Option<seq<string>>, adds: seq<string>, m: nat, n: nat)
    requires m <= n && AfterAdds(file, adds, m).Some?
    ensures AfterAdds(file, adds, n).Some?
    ensures AfterAdds(file, adds, m).value <= AfterAdds(file, adds, n).value
  {
    if m < n {
      AfterAddsExtends(file, adds, m, n - 1);
      AddLinkExtends(AfterAdds(file, adds, n - 1).value, ClipAt(adds, n - 1));
    }
  }

  /** One addition keeps every line where it was. */
  lemma AddLinkExtends(lines: seq<string>, clip: string)
    ensures AddLink(Some(lines), clip).0.Some?
    ensures lines <= AddLink(Some(lines), clip).0.value
  {
  }

  /** How far the loop over the URLs got: their routes, up to the first URL that raised. */
  datatype Handling = Handling(routes: seq<Route>, failing: Option<string>)

  /**
   * `for url in urls: handle(url)` for any `handle`: the routes found, in
   * order, up to the first URL that raises.
   */
  function RouteAll(urls: seq<string>, handle: string -> Result<Route, UrlError>): Handling {
    if urls == [] then Handling([], None)
    else match handle(urls[0])
      case Err(_) => Handling([], Some(urls[0]))
      case Ok(route) =>
        var rest := RouteAll(urls[1..], handle);
        Handling([route] + rest.routes, rest.failing)
  }

  /** The worker's loop over the listed URLs. */
  function HandleEach(urls: seq<string>, lib: UrlLib): Handling {
    RouteAll(urls, u => HandleUrl(u, lib))
  }

  /** The loop routes a prefix of the URLs and stops exactly at the first one that raises, or after the last. */
  lemma {:induction false} RouteAllSpec(urls: seq<string>, handle: string -> Result<Route, UrlError>)
    ensures var h := RouteAll(urls, handle);
      && |h.routes| <= |urls|
      && (forall i :: 0 <= i < |h.routes| ==> handle(urls[i]) == Ok(h.routes[i]))
      && (h.failing.None? <==> |h.routes| == |urls|)
      && (h.failing.Some? ==> h.failing.value == urls[|h.routes|] && handle(urls[|h.routes|]).Err?)
  {
    if urls != [] && handle(urls[0]).Ok? {
      var us := urls[1..];
      RouteAllSpec(us, handle);
      var rest := RouteAll(us, handle);
      var routes := [handle(urls[0]).value] + rest.routes;
      forall i | 0 <= i < |routes|
        ensures handle(urls[i]) == Ok(routes[i])
      {
        if i > 0 {
          assert urls[i] == us[i - 1] && routes[i] == rest.routes[i - 1];
        }
      }
      if rest.failing.Some? {
        assert urls[|routes|] == us[|rest.routes|];
      }
    }
  }

  /** The loop's outcome is pinned down by the routes found and where, if anywhere, it stopped. */
  lemma {:induction false} RouteAllIs(urls: seq<string>, routes: seq<Route>, handle: string -> Result<Route, UrlError>)
    requires |routes| <= |urls|
    requires forall i :: 0 <= i < |routes| ==> handle(urls[i]) == Ok(routes[i])
    requires |routes| == |urls| || handle(urls[|routes|]).Err?
    ensures RouteAll(urls, handle) == Handling(routes, if |routes| == |urls| then None else Some(urls[|routes|]))
  {
    if urls != [] && routes != [] {
      var us, rs := urls[1..], routes[1..];
      forall i | 0 <= i < |rs|
        ensures handle(us[i]) == Ok(rs[i])
      {
        assert us[i] == urls[i + 1] && rs[i] == routes[i + 1];
      }
      assert |rs| == |us| || us[|rs|] == urls[|routes|];
      RouteAllIs(us, rs, handle);
      assert [routes[0]] + rs == routes;
    }
  }

  /**
   * The worker's loop routes a prefix of the URLs, each by `handle_url`,
   * and stops exactly at the first URL that raises, or after the last one.
   */
  lemma HandleEachSpec(urls: seq<string>, lib: UrlLib)
    ensures var h := HandleEach(urls, lib);
      && |h.routes| <= |urls|
      && (forall i :: 0 <= i < |h.routes| ==> HandleUrl(urls[i], lib) == Ok(h.routes[i]))
      && (h.failing.None? <==> |h.routes| == |urls|)
      && (h.failing.Some? ==> h.failing.value == urls[|h.routes|] && HandleUrl(urls[|h.routes|], lib).Err?)
  {
    RouteAllSpec(urls, u => HandleUrl(u, lib));
  }

  /** The worker's loop is pinned down by the routes found and where, if anywhere, it stopped. */
  lemma HandleEachIs(urls: seq<string>, routes: seq<Route>, lib: UrlLib)
    requires |routes| <= |urls|
    requires forall i :: 0 <= i < |routes| ==> HandleUrl(urls[i], lib) == Ok(routes[i])
    requires |routes| == |urls| || HandleUrl(urls[|routes|], lib).Err?
    ensures HandleEach(urls, lib) == Handling(routes, if |routes| == |urls| then None else Some(urls[|routes|]))
  {
    RouteAllIs(urls, routes, u => HandleUrl(u, lib));
  }

  /** One more URL routed extends the routes found so far. */
  lemma RoutedSnoc(urls: seq<string>, routes: seq<Route>, r: Route, lib: UrlLib)
    requires |routes| < |urls|
    requires forall j :: 0 <= j < |routes| ==> HandleUrl(urls[j], lib) == Ok(routes[j])
    requires HandleUrl(urls[|routes|], lib) == Ok(r)
    ensures forall j :: 0 <= j < |routes| + 1 ==> HandleUrl(urls[j], lib) == Ok((routes + [r])[j])
  {
  }

  /** How a run of the download worker ended. */
  datatype Run =
    | ListMissing                                  // "download-list.txt not found"
    | ListEmpty                                    // no non-blank line
    | Completed(routes: seq<Route>)                // every URL handled, list emptied
    | Aborted(routes: seq<Route>, url: string)     // `urlparse` raised on `url`

  /**
   * The worker of `download_all`: read the list once, route each URL in
   * file order, and only when all of them are handled empty the file,
   * including whatever the add-link hotkey appended meanwhile. A URL that
   * makes `urlparse` raise ends the run and leaves the file as it then
   * stands.
   */
  function RunWorker(file: Option<seq<string>>, adds: seq<string>, lib: UrlLib): (r: (Option<seq<string>>, Run))
    ensures file.None? ==> r == (file, ListMissing)
    ensures file.Some? ==> !r.1.ListMissing?
    ensures file.Some? && Urls(file.value) == [] ==> r == (file, ListEmpty)
    ensures r.1.Completed? ==>
      && file.Some? && r.0 == Some([])
      && |r.1.routes| == |Urls(file.value)|
      && forall i :: 0 <= i < |r.1.routes| ==> HandleUrl(Urls(file.value)[i], lib) == Ok(r.1.routes[i])
    ensures r.1.Aborted? ==>
      && file.Some? && |r.1.routes| < |Urls(file.value)|
      && r.1.url == Urls(file.value)[|r.1.routes|] && HandleUrl(r.1.url, lib).Err?
      && (forall i :: 0 <= i < |r.1.routes| ==> HandleUrl(Urls(file.value)[i], lib) == Ok(r.1.routes[i]))
      && r.0 == AfterAdds(file, adds, |r.1.routes|)
  {
    if file.None? then (file, ListMissing)
    else
      var urls := Urls(file.value);
      if urls == [] then (file, ListEmpty)
      else
        HandleEachSpec(urls, lib);
        var h := HandleEach(urls, lib);
        match h.failing
        case None => (Some([]), Completed(h.routes))
        case Some(url) => (AfterAdds(file, adds, |h.routes|), Aborted(h.routes, url))
  }

  /** Left alone, a run that stops early leaves the list exactly as it was. */
  lemma AbortedRunKeepsList(file: Option<seq<string>>, lib: UrlLib)
    requires RunWorker(file, [], lib).1.Aborted?
    ensures RunWorker(file, [], lib).0 == file
  {
    NoAddsNoChange(file, |RunWorker(file, [], lib).1.routes|);
  }

  /**
   * A link added while a run goes through its URLs is lost: it is not one
   * of the URLs the run downloads, it is listed when the run ends, and the
   * list is emptied after the run all the same.
   */
  lemma LinksAddedDuringRunAreLost(lines: seq<string>, adds: seq<string>, lib: UrlLib)
    requires Urls(lines) != []
    requires HandleEach(Urls(lines), lib).failing.None?
    requires AddLink(Some(lines), ClipAt(adds, 0)).1.Appended?
    requires NL !in Strip(ClipAt(adds, 0))
    ensures var u := AddLink(Some(lines), ClipAt(adds, 0)).1.url;
      var last := AfterAdds(Some(lines), adds, |Urls(lines)|);
      && u !in Urls(lines)
      && last.Some? && u in Urls(last.value)
      && RunWorker(Some(lines), adds, lib) == (Some([]), Completed(HandleEach(Urls(lines), lib).routes))
  {
    FirstAddListed(lines, adds, |Urls(lines)|);
  }

  /** The link added during the first step is still listed after any later step. */
  lemma FirstAddListed(lines: seq<string>, adds: seq<string>, n: nat)
    requires n >= 1
    requires AddLink(Some(lines), ClipAt(adds, 0)).1.Appended?
    requires NL !in Strip(ClipAt(adds, 0))
    ensures AfterAdds(Some(lines), adds, n).Some?
    ensures Strip(ClipAt(adds, 0)) in Urls(AfterAdds(Some(lines), adds, n).value)
  {
    var u := Strip(ClipAt(adds, 0));
    WrittenSingle(u);
    assert AfterAdds(Some(lines), adds, 0) == Some(lines);
    assert AfterAdds(Some(lines), adds, 1) == Some(lines + [u]);
    AfterAddsExtends(Some(lines), adds, 1, n);
    var last := AfterAdds(Some(lines), adds, n).value;
    assert last[|lines|] == u;
    StripIdempotent(ClipAt(adds, 0));
    NonBlankMembers(last, Strip, u);
  }

  /**
   * The script's state: the list file (absent until first written) and the
   * `downloading` event that keeps two runs from overlapping.
   */
  class StrictDownloader {
    var listFile: Option<seq<string>>
    var downloading: bool

    constructor(listFile: Option<seq<string>>)
      ensures this.listFile == listFile && !downloading
    {
      this.listFile := listFile;
      downloading := false;
    }

    /** `add_link_from_clipboard`, given the copied text. */
    method AddLinkFromClipboard(clip: string) returns (outcome: AddOutcome)
      modifies this
      ensures (listFile, outcome) == AddLink(old(listFile), clip)
      ensures downloading == old(downloading)
    {
      var url := Strip(clip);
      if url == [] {
        StripEmptyIff(clip);
        return NothingCopied;
      }
      var existing := if listFile.Some? then Urls(listFile.value) else [];
      if url in existing {
        return AlreadyListed(url);
      }
      listFile := Some(Lines(listFile) + Written(url));
      StripEmptyIff(clip);
      outcome := Appended(url);
    }

    /** `download_all`: refuses while a run is going on, otherwise raises the flag and starts one. */
    method DownloadAll() returns (started: bool)
      modifies this
      ensures started == !old(downloading)
      ensures downloading
      ensures listFile == old(listFile)
    {
      if downloading {
        return false;
      }
      downloading := true;
      started := true;
    }

    /**
     * The worker thread of `download_all`, with the add-link hotkey firing
     * during step `k` with the copied text `ClipAt(adds, k)`. Those
     * additions only touch the file, and the routing only reads the URLs
     * read at the start, so the model routes first and then applies the
     * additions made during the steps that ran. Every way out lowers the
     * flag, as the `finally` does.
     */
    method Worker(adds: seq<string>, lib: UrlLib) returns (run: Run)
      modifies this
      ensures !downloading
      ensures (listFile, run) == RunWorker(old(listFile), adds, lib)
    {
      if listFile.None? {
        downloading := false;
        return ListMissing;
      }
      var urls := Urls(listFile.value);
      if urls == [] {
        downloading := false;
        return ListEmpty;
      }
      var routes, failing := RouteUrls(urls, lib);
      AddDuringRun(adds, |routes|);
      downloading := false;
      if failing.Some? {
        return Aborted(routes, failing.value);
      }
      listFile := Some([]);
      run := Completed(routes);
    }

    /** The `for url in urls` loop of the worker: route each URL in turn until one raises. */
    static method RouteUrls(urls: seq<string>, lib: UrlLib) returns (routes: seq<Route>, failing: Option<string>)
      ensures HandleEach(urls, lib) == Handling(routes, failing)
    {
      routes := [];
      var i := 0;
      while i < |urls|
        invariant 0 <= i <= |urls| && |routes| == i
        invariant forall j :: 0 <= j < i ==> HandleUrl(urls[j], lib) == Ok(routes[j])
      {
        var h := HandleUrl(urls[i], lib);
        if h.Err? {
          HandleEachIs(urls, routes, lib);
          return routes, Some(urls[i]);
        }
        RoutedSnoc(urls, routes, h.value, lib);
        routes := routes + [h.value];
        i := i + 1;
      }
      HandleEachIs(urls, routes, lib);
      failing := None;
    }

    /** The add-link hotkey firing once during each of the first `n` steps of a run. */
    method AddDuringRun(adds: seq<string>, n: nat)
      modifies this
      ensures listFile == AfterAdds(old(listFile), adds, n)
      ensures downloading == old(downloading)
    {
      var k := 0;
      while k < n
        invariant k <= n
        invariant listFile == AfterAdds(old(listFile), adds, k)
        invariant downloading == old(downloading)
      {
        var _ := AddLinkFromClipboard(ClipAt(adds, k));
        k := k + 1;
      }
    }
  }
}
