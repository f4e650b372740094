/**
 * The part of Python's `urllib.parse` the strict downloader relies on:
 * `urlparse(url).hostname`, computed the way `urlsplit` and the `hostname`
 * property of a current CPython compute it, including the `ValueError`s
 * `urlsplit` raises for a network location it rejects: unbalanced
 * brackets, a malformed checked host (the one in brackets, or the plain
 * one when only the user information has brackets), and a non-ASCII network location
 * that NFKC normalisation turns into one holding a delimiter. The Unicode
 * normalisation table and `ipaddress.ip_address` are given as parameters.
 */
module Url {
  import opened Wrappers
  import opened Text

  /** The `ValueError`s `urlsplit` raises for a network location it rejects. */
  datatype UrlError =
    | InvalidIPv6            // "Invalid IPv6 URL": unbalanced brackets, or text around them
    | InvalidBracketedHost   // a checked host that is neither an IPvFuture literal nor an IPv6 address
    | InvalidNfkc            // "netloc ... contains invalid characters under NFKC normalization"

  /** The versions `ipaddress.ip_address` tells apart. */
  datatype IpVersion = IPv4 | IPv6

  /**
   * The two tables `urlsplit` consults beyond plain text processing:
   * Unicode's NFKC normalisation, `unicodedata.normalize('NFKC', s)`, and
   * `ipaddress.ip_address`, which gives the version of a valid address and
   * raises (here `None`) on anything else.
   */
  datatype UrlLib = UrlLib(nfkc: string -> string, ipAddress: string -> Option<IpVersion>)

  /** A WHATWG "C0 control or space", U+0000 to U+0020, which `urlsplit` strips from the front. */
  predicate IsC0OrSpace(c: char) {
    c as int <= 0x20
  }

  function LStripC0(s: string): string
  {
    if s != [] && IsC0OrSpace(s[0]) then LStripC0(s[1..]) else s
  }

  /** Stripping drops a prefix of C0 characters and stops at the first other one. */
  lemma {:induction false} LStripC0Suffix(s: string)
    ensures |LStripC0(s)| <= |s| && LStripC0(s) == s[|s| - |LStripC0(s)|..]
    ensures LStripC0(s) == [] || !IsC0OrSpace(LStripC0(s)[0])
    ensures forall i :: 0 <= i < |s| - |LStripC0(s)| ==> IsC0OrSpace(s[i])
  {
    if s != [] && IsC0OrSpace(s[0]) {
      var t := s[1..];
      LStripC0Suffix(t);
      var r := LStripC0(s);
      assert r == LStripC0(t);
      assert t[|t| - |r|..] == s[|s| - |r|..];
      forall i | 0 <= i < |s| - |r| ensures IsC0OrSpace(s[i]) {
        if i > 0 {
          assert s[i] == t[i - 1];
        }
      }
    } else {
      assert s[0..] == s;
    }
  }

  /** Tab, carriage return and line feed, which `urlsplit` deletes wherever they are. */
  predicate IsUnsafe(c: char) {
    c == '\t' || c == '\r' || c == '\n'
  }

  predicate AnyUnsafe(s: string) {
    exists i :: 0 <= i < |s| && IsUnsafe(s[i])
  }

  function RemoveUnsafe(s: string): string
  {
    if s == [] then [] else (if IsUnsafe(s[0]) then [] else [s[0]]) + RemoveUnsafe(s[1..])
  }

  /** What is left holds no tab, carriage return or line feed, and is no longer than before. */
  lemma {:induction false} RemoveUnsafeClean(s: string)
    ensures |RemoveUnsafe(s)| <= |s|
    ensures !AnyUnsafe(RemoveUnsafe(s))
  {
    if s != [] {
      RemoveUnsafeClean(s[1..]);
      var head: string := if IsUnsafe(s[0]) then [] else [s[0]];
      var r := RemoveUnsafe(s);
      assert r == head + RemoveUnsafe(s[1..]);
      forall i | 0 <= i < |r| ensures !IsUnsafe(r[i]) {
        if i >= |head| {
          assert r[i] == RemoveUnsafe(s[1..])[i - |head|];
        }
      }
    }
  }

  lemma {:induction false} RemoveUnsafeKeeps(s: string)
    requires !AnyUnsafe(s)
    ensures RemoveUnsafe(s) == s
  {
    if s != [] {
      assert !IsUnsafe(s[0]);
      assert !AnyUnsafe(s[1..]) by {
        forall i | 0 <= i < |s[1..]| ensures !IsUnsafe(s[1..][i]) {
          assert s[1..][i] == s[i + 1];
        }
      }
      RemoveUnsafeKeeps(s[1..]);
      assert [s[0]] + s[1..] == s;
    }
  }

  /** `s.find(c)`, with `None` for -1. */
  function IndexOf(s: string, c: char): (r: Option<nat>)
    ensures r.None? <==> c !in s
    ensures r.Some? ==> r.value < |s| && s[r.value] == c && c !in s[..r.value]
  {
    if s == [] then None
    else if s[0] == c then Some(0)
    else match IndexOf(s[1..], c)
      case None => None
      case Some(i) =>
        assert s[..i + 1] == [s[0]] + s[1..][..i];
        Some(i + 1)
  }

  /** `s.partition(c)[0]`: the text before the first `c`, or all of `s`. */
  function Before(s: string, c: char): (r: string)
    ensures r <= s && c !in r
    ensures |r| < |s| ==> s[|r|] == c
  {
    match IndexOf(s, c)
    case Some(i) => s[..i]
    case None => s
  }

  /** `s.partition(c)[2]`: the text after the first `c`, or nothing. */
  function After(s: string, c: char): (r: string)
    ensures c in s ==> s == Before(s, c) + [c] + r
    ensures c !in s ==> r == []
  {
    match IndexOf(s, c)
    case Some(i) => s[i + 1..]
    case None => []
  }

  /** `s.rpartition(c)[2]`: the text after the last `c`, or all of `s`. */
  function AfterLast(s: string, c: char): (r: string)
    ensures c !in r
  {
    if s == [] || s[|s| - 1] == c then [] else AfterLast(s[..|s| - 1], c) + [s[|s| - 1]]
  }

  lemma {:induction false} AfterLastAbsent(s: string, c: char)
    requires c !in s
    ensures AfterLast(s, c) == s
  {
    if s != [] {
      assert c !in s[..|s| - 1];
      AfterLastAbsent(s[..|s| - 1], c);
      assert s[..|s| - 1] + [s[|s| - 1]] == s;
    }
  }

  /** Letters, digits, '+', '-' and '.', the characters a scheme is made of. */
  predicate IsSchemeChar(c: char) {
    IsAsciiLetter(c) || '0' <= c <= '9' || c == '+' || c == '-' || c == '.'
  }

  predicate IsScheme(s: string) {
    s != [] && IsAsciiLetter(s[0]) && forall i :: 0 <= i < |s| ==> IsSchemeChar(s[i])
  }

  /**
   * What `urlsplit` leaves once the scheme is taken off: the text after the
   * first ':' when what precedes it is a scheme (an ASCII letter, then
   * scheme characters), otherwise everything.
   */
  function AfterScheme(s: string): string {
    match IndexOf(s, ':')
    case Some(i) => if IsScheme(s[..i]) then s[i + 1..] else s
    case None => s
  }

  /** '/', '?' and '#', which end the network location. */
  predicate IsNetlocEnd(c: char) {
    c == '/' || c == '?' || c == '#'
  }

  /** The length of the longest prefix of `s` free of '/', '?' and '#'. */
  function NetlocLength(s: string): (n: nat)
    ensures n <= |s|
    ensures forall i :: 0 <= i < n ==> !IsNetlocEnd(s[i])
    ensures n < |s| ==> IsNetlocEnd(s[n])
  {
    if s == [] || IsNetlocEnd(s[0]) then 0 else 1 + NetlocLength(s[1..])
  }

  lemma {:induction false} NetlocLengthAt(a: string, b: string)
    requires forall i :: 0 <= i < |a| ==> !IsNetlocEnd(a[i])
    requires b == [] || IsNetlocEnd(b[0])
    ensures NetlocLength(a + b) == |a|
  {
    if a == [] {
      assert a + b == b;
    } else {
      assert (a + b)[1..] == a[1..] + b;
      NetlocLengthAt(a[1..], b);
    }
  }

  /** The network location: present only when the rest starts with "//". */
  function Netloc(rest: string): Option<string> {
    if |rest| >= 2 && rest[0] == '/' && rest[1] == '/' then
      var n := rest[2..];
      Some(n[..NetlocLength(n)])
    else None
  }

  /** An opening bracket without a closing one or the other way round. */
  predicate Unbalanced(netloc: string) {
    ('[' in netloc) != (']' in netloc)
  }

  /**
   * The raw host of a network location: after the last '@'; then, when a
   * '[' follows, what lies between it and the next ']', otherwise what
   * precedes the first ':'.
   */
  function HostPart(netloc: string): string {
    var info := AfterLast(netloc, '@');
    if '[' in info then Before(After(info, '['), ']') else Before(info, ':')
  }

  /** `str.isascii()`. */
  predicate IsAscii(s: string) {
    forall i :: 0 <= i < |s| ==> s[i] as int < 0x80
  }

  /** `s` with every character of `cs` taken out, as a chain of `s.replace(c, '')` leaves it. */
  function Without(s: string, cs: string): string {
    if s == [] then [] else (if s[0] in cs then [] else [s[0]]) + Without(s[1..], cs)
  }

  /** Taking out characters that do not occur leaves the text as it was. */
  lemma {:induction false} WithoutNone(s: string, cs: string)
    requires forall i :: 0 <= i < |s| ==> s[i] !in cs
    ensures Without(s, cs) == s
  {
    if s != [] {
      WithoutNone(s[1..], cs);
      assert [s[0]] + s[1..] == s;
    }
  }

  /**
   * `_checknetloc`: a non-empty, non-ASCII network location is rejected
   * when its NFKC form, taken after removing '@', ':', '#' and '?', differs
   * from it and holds one of '/', '?', '#', '@' or ':'.
   */
  predicate NfkcRejects(netloc: string, nfkc: string -> string) {
    && netloc != [] && !IsAscii(netloc)
    && var n := Without(netloc, "@:#?");
      var normal := nfkc(n);
      normal != n && exists i :: 0 <= i < |normal| && normal[i] in "/?#@:"
  }

  predicate IsHexDigit(c: char) {
    '0' <= c <= '9' || 'a' <= c <= 'f' || 'A' <= c <= 'F'
  }

  /** The length of the run of hexadecimal digits `s` starts with. */
  function HexLength(s: string): (n: nat)
    ensures n <= |s|
    ensures forall i :: 0 <= i < n ==> IsHexDigit(s[i])
    ensures n < |s| ==> !IsHexDigit(s[n])
  {
    if s != [] && IsHexDigit(s[0]) then 1 + HexLength(s[1..]) else 0
  }

  /**
   * `re.match(r"\Av[a-fA-F0-9]+\..+\z", host)`: 'v', at least one
   * hexadecimal digit, '.', then at least one character other than a line
   * feed up to the very end.
   */
  predicate IsIpvFuture(host: string) {
    && host != [] && host[0] == 'v'
    && var digits := HexLength(host[1..]);
      && digits >= 1 && 1 + digits + 1 < |host| && host[1 + digits] == '.'
      && forall i :: 1 + digits + 1 <= i < |host| ==> host[i] != '\n'
  }

  /**
   * `_check_bracketed_host`: a host starting with 'v' must be an IPvFuture
   * literal; any other must be an address `ipaddress` reads as IPv6 (an
   * IPv4 address and a name both raise).
   */
  function BracketedHostCheck(host: string, ipAddress: string -> Option<IpVersion>): Option<UrlError> {
    if host != [] && host[0] == 'v' then (if IsIpvFuture(host) then None else Some(InvalidBracketedHost))
    else if ipAddress(host) == Some(IPv6) then None
    else Some(InvalidBracketedHost)
  }

  /**
   * `_check_bracketed_netloc`, run whenever the network location holds both
   * brackets: in the part after the last '@', when it has a '[', nothing
   * may stand before it and only a ':' may follow the ']', and the host is
   * what lies between; when it has none (the brackets were in the user
   * information), the host is what precedes the first ':'. Either host then
   * goes through `_check_bracketed_host`.
   */
  function BracketCheck(netloc: string, ipAddress: string -> Option<IpVersion>): Option<UrlError> {
    var info := AfterLast(netloc, '@');
    if '[' !in info then BracketedHostCheck(Before(info, ':'), ipAddress)
    else if Before(info, '[') != [] then Some(InvalidIPv6)
    else
      var bracketed := After(info, '[');
      var host, port := Before(bracketed, ']'), After(bracketed, ']');
      if port != [] && port[0] != ':' then Some(InvalidIPv6)
      else BracketedHostCheck(host, ipAddress)
  }

  /**
   * What `urlsplit` and `hostname` make of a network location that is
   * there: the three checks in the order `urlsplit` runs them, then the
   * lower-cased host part.
   */
  function HostOfNetloc(n: string, lib: UrlLib): Result<string, UrlError> {
    if Unbalanced(n) then Err(InvalidIPv6)
    else if '[' in n && BracketCheck(n, lib.ipAddress).Some? then Err(BracketCheck(n, lib.ipAddress).value)
    else if NfkcRejects(n, lib.nfkc) then Err(InvalidNfkc)
    else Ok(Lower(HostPart(n)))
  }

  /**
   * `(urlparse(url).hostname or "").lower()`: the lower-cased host, "" when
   * the URL has no network location, or the `ValueError` `urlsplit` raises.
   */
  function Hostname(url: string, lib: UrlLib): Result<string, UrlError>
  {
    var u := RemoveUnsafe(LStripC0(url));
    match Netloc(AfterScheme(u))
    case None => Ok([])
    case Some(n) => HostOfNetloc(n, lib)
  }

  /** The hostname comes back lower-cased: lower-casing it again changes nothing. */
  lemma HostnameLowered(url: string, lib: UrlLib)
    requires Hostname(url, lib).Ok?
    ensures Lower(Hostname(url, lib).value) == Hostname(url, lib).value
  {
    var u := RemoveUnsafe(LStripC0(url));
    match Netloc(AfterScheme(u))
    case None =>
    case Some(n) => LowerIdempotent(HostPart(n));
  }

  /** An ASCII network location always passes the normalisation check, whatever the table. */
  lemma AsciiPassesNfkc(netloc: string, nfkc: string -> string)
    requires IsAscii(netloc)
    ensures !NfkcRejects(netloc, nfkc)
  {
  }

  /** A network location without brackets that passes the normalisation check gives its host part. */
  lemma PlainNetlocHost(n: string, lib: UrlLib)
    requires '[' !in n && ']' !in n
    requires !NfkcRejects(n, lib.nfkc)
    ensures HostOfNetloc(n, lib) == Ok(Lower(HostPart(n)))
  {
  }

  /** A host name in the plain form: none of the characters that delimit parts of a URL. */
  predicate PlainHost(host: string) {
    forall i :: 0 <= i < |host| ==> host[i] !in "/?#@:[]" && !IsUnsafe(host[i])
  }

  /** A scheme and its ':' are taken off whatever follows them. */
  lemma AfterSchemeOf(scheme: string, rest: string)
    requires IsScheme(scheme)
    ensures AfterScheme(scheme + [':'] + rest) == rest
  {
    var u := scheme + [':'] + rest;
    assert ':' !in scheme by {
      forall i | 0 <= i < |scheme| ensures scheme[i] != ':' {
        assert IsSchemeChar(scheme[i]);
      }
    }
    assert u[|scheme|] == ':';
    assert u[..|scheme|] == scheme;
    assert u[|scheme| + 1..] == rest;
  }

  /** After "//", the network location runs up to the first '/', '?' or '#'. */
  lemma NetlocOf(netloc: string, path: string)
    requires forall i :: 0 <= i < |netloc| ==> !IsNetlocEnd(netloc[i])
    requires path == [] || IsNetlocEnd(path[0])
    ensures Netloc("//" + netloc + path) == Some(netloc)
  {
    var rest := "//" + netloc + path;
    assert rest[2..] == netloc + path;
    NetlocLengthAt(netloc, path);
    assert (netloc + path)[..|netloc|] == netloc;
  }

  /** The host of `userinfo@host:port` is the host, and the brackets are balanced (there are none). */
  lemma HostPartOf(user: string, host: string, port: string)
    requires PlainHost(host)
    requires user == [] || user[|user| - 1] == '@'
    requires forall i :: 0 <= i < |user| ==> user[i] !in "[]"
    requires port == [] || port[0] == ':'
    requires forall i :: 0 <= i < |port| ==> port[i] !in "@[]"
    ensures HostPart(user + host + port) == host
    ensures !Unbalanced(user + host + port)
  {
    var hp := host + port;
    var netloc := user + hp;
    assert user + host + port == netloc;
    assert '@' !in hp && '[' !in hp by {
      forall i | 0 <= i < |hp| ensures hp[i] != '@' && hp[i] != '[' {
        if i < |host| {
          assert hp[i] == host[i];
        } else {
          assert hp[i] == port[i - |host|];
        }
      }
    }
    assert '[' !in netloc && ']' !in netloc by {
      forall i | 0 <= i < |netloc| ensures netloc[i] != '[' && netloc[i] != ']' {
        if i < |user| {
          assert netloc[i] == user[i];
        } else if i < |user| + |host| {
          assert netloc[i] == host[i - |user|];
        } else {
          assert netloc[i] == port[i - |user| - |host|];
        }
      }
    }
    AfterLastOf(user, hp);
    assert ':' !in host by {
      forall i | 0 <= i < |host| ensures host[i] != ':' {
        assert host[i] !in "/?#@:[]";
      }
    }
    BeforeOf(host, port, ':');
  }

  /** Searching past a stretch without `c` shifts the index found by its length. */
  lemma {:induction false} IndexOfConcat(a: string, b: string, c: char)
    requires c !in a
    ensures IndexOf(a + b, c) == match IndexOf(b, c) case None => None case Some(i) => Some(|a| + i)
  {
    if a == [] {
      assert a + b == b;
    } else {
      assert a[0] != c && c !in a[1..] by {
        assert a == [a[0]] + a[1..];
      }
      assert (a + b)[0] == a[0];
      assert (a + b)[1..] == a[1..] + b;
      IndexOfConcat(a[1..], b, c);
    }
  }

  /** The text before the first `c` of `a + b` is `a` when `a` has no `c` and `b` is empty or starts with one. */
  lemma BeforeOf(a: string, b: string, c: char)
    requires c !in a
    requires b == [] || b[0] == c
    ensures Before(a + b, c) == a
  {
    IndexOfConcat(a, b, c);
    assert (a + b)[..|a|] == a;
  }

  /** The part after the last '@' of `user + rest` is `rest` when `user` is empty or ends in '@' and `rest` has no '@'. */
  lemma {:induction false} AfterLastOf(user: string, rest: string)
    requires user == [] || user[|user| - 1] == '@'
    requires '@' !in rest
    ensures AfterLast(user + rest, '@') == rest
  {
    if user == [] {
      assert user + rest == rest;
      AfterLastAbsent(rest, '@');
    } else if rest != [] {
      var s := user + rest;
      var last := rest[|rest| - 1];
      var init := rest[..|rest| - 1];
      assert s[|s| - 1] == last && last != '@';
      assert s[..|s| - 1] == user + init;
      assert '@' !in init;
      calc {
        AfterLast(s, '@');
        AfterLast(s[..|s| - 1], '@') + [last];
        { AfterLastOf(user, init); }
        init + [last];
        rest;
      }
    } else {
      assert user + rest == user;
    }
  }

  /**
   * The hostname of `scheme://netloc/path` is what the checks and the host
   * part make of `netloc`: the network location is exactly what lies
   * between "//" and the first '/', '?' or '#'.
   */
  lemma HostnameOfParts(scheme: string, netloc: string, path: string, lib: UrlLib)
    requires IsScheme(scheme) && !AnyUnsafe(scheme + "://" + netloc + path)
    requires forall i :: 0 <= i < |netloc| ==> !IsNetlocEnd(netloc[i])
    requires path == [] || IsNetlocEnd(path[0])
    ensures Hostname(scheme + "://" + netloc + path, lib) == HostOfNetloc(netloc, lib)
  {
    var url := scheme + "://" + netloc + path;
    assert url[0] == scheme[0];
    RemoveUnsafeKeeps(url);
    assert url == scheme + [':'] + ("//" + netloc + path);
    AfterSchemeOf(scheme, "//" + netloc + path);
    NetlocOf(netloc, path);
  }

  /**
   * The hostname of `scheme://userinfo@host:port/path`, for a plain host,
   * is the host lower-cased, whatever the user information and the port,
   * provided the network location passes the normalisation check (as every
   * ASCII one does, by `AsciiPassesNfkc`).
   */
  lemma HostnameOfCanonical(scheme: string, user: string, host: string, port: string, path: string, lib: UrlLib)
    requires IsScheme(scheme) && PlainHost(host)
    requires !AnyUnsafe(scheme + "://" + (user + host + port) + path)
    requires user == [] || user[|user| - 1] == '@'
    requires forall i :: 0 <= i < |user| ==> user[i] !in "[]/?#"
    requires port == [] || port[0] == ':'
    requires forall i :: 0 <= i < |port| ==> port[i] !in "@[]/?#"
    requires path == [] || IsNetlocEnd(path[0])
    requires !NfkcRejects(user + host + port, lib.nfkc)
    ensures Hostname(scheme + "://" + (user + host + port) + path, lib) == Ok(Lower(host))
  {
    var netloc := user + host + port;
    assert forall i :: 0 <= i < |netloc| ==> !IsNetlocEnd(netloc[i]) by {
      forall i | 0 <= i < |netloc| ensures !IsNetlocEnd(netloc[i]) {
        if i < |user| {
          assert netloc[i] == user[i];
        } else if i < |user| + |host| {
          assert netloc[i] == host[i - |user|];
        } else {
          assert netloc[i] == port[i - |user| - |host|];
        }
      }
    }
    HostPartOf(user, host, port);
    PlainNetlocHost(netloc, lib);
    HostnameOfParts(scheme, netloc, path, lib);
  }

  /** The same for a URL with neither user information nor port. */
  lemma HostnameOfPlain(scheme: string, host: string, path: string, lib: UrlLib)
    requires IsScheme(scheme) && PlainHost(host)
    requires !AnyUnsafe(scheme + "://" + host + path)
    requires path == [] || IsNetlocEnd(path[0])
    requires !NfkcRejects(host, lib.nfkc)
    ensures Hostname(scheme + "://" + host + path, lib) == Ok(Lower(host))
  {
    assert [] + host + [] == host;
    HostnameOfCanonical(scheme, [], host, [], path, lib);
  }

  /** Brackets that do not pair up make `urlsplit` raise, whatever else the URL holds. */
  lemma UnbalancedRaises(scheme: string, netloc: string, path: string, lib: UrlLib)
    requires IsScheme(scheme) && !AnyUnsafe(scheme + "://" + netloc + path)
    requires forall i :: 0 <= i < |netloc| ==> !IsNetlocEnd(netloc[i])
    requires path == [] || IsNetlocEnd(path[0])
    requires Unbalanced(netloc)
    ensures Hostname(scheme + "://" + netloc + path, lib) == Err(InvalidIPv6)
  {
    HostnameOfParts(scheme, netloc, path, lib);
  }

  /** The parts of a bracketed network location `[addr]port`, as `_check_bracketed_netloc` and `hostname` cut it. */
  lemma BracketedParts(addr: string, port: string)
    requires forall i :: 0 <= i < |addr| ==> addr[i] !in "@[]"
    requires forall i :: 0 <= i < |port| ==> port[i] != '@'
    ensures var netloc := "[" + addr + "]" + port;
      && AfterLast(netloc, '@') == netloc
      && '[' in netloc && Before(netloc, '[') == []
      && Before(After(netloc, '['), ']') == addr
      && After(After(netloc, '['), ']') == port
      && HostPart(netloc) == addr
  {
    var netloc := "[" + addr + "]" + port;
    assert '@' !in netloc by {
      forall i | 0 <= i < |netloc| ensures netloc[i] != '@' {
        if 0 < i <= |addr| {
          assert netloc[i] == addr[i - 1];
        } else if i > |addr| + 1 {
          assert netloc[i] == port[i - |addr| - 2];
        }
      }
    }
    AfterLastAbsent(netloc, '@');
    assert IndexOf(netloc, '[') == Some(0);
    var bracketed := After(netloc, '[');
    assert bracketed == netloc[1..] == addr + ("]" + port);
    BeforeOf(addr, "]" + port, ']');
    assert bracketed == Before(bracketed, ']') + "]" + After(bracketed, ']');
  }

  /**
   * A host in brackets with a port or nothing after them (in a URL, by
   * `HostnameOfParts`): an address `ipaddress` reads as IPv6 gives the
   * address lower-cased, and anything else that does not start with 'v'
   * (an IPv4 address included) raises.
   */
  lemma BracketedNetloc(addr: string, port: string, lib: UrlLib)
    requires addr == [] || addr[0] != 'v'
    requires forall i :: 0 <= i < |addr| ==> addr[i] !in "@[]"
    requires port == [] || port[0] == ':'
    requires forall i :: 0 <= i < |port| ==> port[i] !in "@[]"
    requires IsAscii(addr) && IsAscii(port)
    ensures lib.ipAddress(addr) == Some(IPv6) ==> HostOfNetloc("[" + addr + "]" + port, lib) == Ok(Lower(addr))
    ensures lib.ipAddress(addr) != Some(IPv6) ==> HostOfNetloc("[" + addr + "]" + port, lib) == Err(InvalidBracketedHost)
  {
    var netloc := "[" + addr + "]" + port;
    BracketedParts(addr, port);
    assert netloc[0] == '[' && netloc[|addr| + 1] == ']';
    assert !Unbalanced(netloc);
    assert BracketCheck(netloc, lib.ipAddress)
      == if lib.ipAddress(addr) == Some(IPv6) then None else Some(InvalidBracketedHost);
    BracketedAscii(addr, port);
    AsciiPassesNfkc(netloc, lib.nfkc);
  }

  lemma BracketedAscii(addr: string, port: string)
    requires IsAscii(addr) && IsAscii(port)
    ensures IsAscii("[" + addr + "]" + port)
  {
    var netloc := "[" + addr + "]" + port;
    forall i | 0 <= i < |netloc| ensures netloc[i] as int < 0x80 {
      if 0 < i <= |addr| {
        assert netloc[i] == addr[i - 1];
      } else if i > |addr| + 1 {
        assert netloc[i] == port[i - |addr| - 2];
      }
    }
  }

  /** Text before the bracket, as in `x[y]z`, is refused whatever the tables say. */
  lemma TextBeforeBracketRaises(scheme: string, path: string, lib: UrlLib)
    requires IsScheme(scheme) && !AnyUnsafe(scheme + "://" + "x[y]z" + path)
    requires path == [] || IsNetlocEnd(path[0])
    ensures Hostname(scheme + "://" + "x[y]z" + path, lib) == Err(InvalidIPv6)
  {
    var netloc := "x[y]z";
    assert forall i :: 0 <= i < |netloc| ==> !IsNetlocEnd(netloc[i]);
    HostnameOfParts(scheme, netloc, path, lib);
    AfterLastAbsent(netloc, '@');
    assert IndexOf(netloc, '[') == Some(1);
  }

  /** How `_check_bracketed_netloc` and `hostname` cut `user@host:port` when only the user information has brackets. */
  lemma UserinfoBracketParts(user: string, host: string, port: string)
    requires PlainHost(host)
    requires user != [] && user[|user| - 1] == '@' && '[' in user && ']' in user
    requires port == [] || port[0] == ':'
    requires forall i :: 0 <= i < |port| ==> port[i] !in "@[]"
    ensures var netloc := user + host + port;
      && '[' in netloc && ']' in netloc
      && AfterLast(netloc, '@') == host + port
      && '[' !in host + port
      && Before(host + port, ':') == host
  {
    var hp := host + port;
    var netloc := user + hp;
    assert user + host + port == netloc;
    assert '@' !in hp && '[' !in hp by {
      forall i | 0 <= i < |hp| ensures hp[i] != '@' && hp[i] != '[' {
        if i < |host| {
          assert hp[i] == host[i];
        } else {
          assert hp[i] == port[i - |host|];
        }
      }
    }
    assert '[' in netloc && ']' in netloc by {
      var j :| 0 <= j < |user| && user[j] == '[';
      var k :| 0 <= k < |user| && user[k] == ']';
      assert netloc[j] == '[' && netloc[k] == ']';
    }
    AfterLastOf(user, hp);
    assert ':' !in host by {
      forall i | 0 <= i < |host| ensures host[i] != ':' {
        assert host[i] !in "/?#@:[]";
      }
    }
    BeforeOf(host, port, ':');
  }

  /**
   * Brackets in the user information alone still send the host through
   * `_check_bracketed_host`: a plain host not starting with 'v' raises
   * unless `ipaddress` reads it as IPv6.
   */
  lemma UserinfoBracketChecksHost(user: string, host: string, port: string, lib: UrlLib)
    requires PlainHost(host) && (host == [] || host[0] != 'v')
    requires user != [] && user[|user| - 1] == '@' && '[' in user && ']' in user
    requires port == [] || port[0] == ':'
    requires forall i :: 0 <= i < |port| ==> port[i] !in "@[]"
    ensures lib.ipAddress(host) != Some(IPv6) ==> HostOfNetloc(user + host + port, lib) == Err(InvalidBracketedHost)
    ensures lib.ipAddress(host) == Some(IPv6) && !NfkcRejects(user + host + port, lib.nfkc) ==>
      HostOfNetloc(user + host + port, lib) == Ok(Lower(host))
  {
    var netloc := user + host + port;
    UserinfoBracketParts(user, host, port);
    assert !Unbalanced(netloc);
    assert BracketCheck(netloc, lib.ipAddress) == BracketedHostCheck(host, lib.ipAddress);
    assert HostPart(netloc) == host;
  }

  /** `u[1]@youtube.com` raises: its brackets send the name `youtube.com` to `ipaddress`. */
  lemma UserinfoBracketRaises(lib: UrlLib)
    requires lib.ipAddress("youtube.com") != Some(IPv6)
    ensures HostOfNetloc("u[1]@youtube.com", lib) == Err(InvalidBracketedHost)
  {
    var user, host := "u[1]@", "youtube.com";
    assert PlainHost(host) by {
      forall i | 0 <= i < |host| ensures host[i] !in "/?#@:[]" && !IsUnsafe(host[i]) {
      }
    }
    assert user[1] == '[' && user[3] == ']';
    assert user + host + [] == "u[1]@youtube.com";
    UserinfoBracketChecksHost(user, host, [], lib);
  }

  /**
   * A network location without brackets or '@', ':', '#', '?', holding a
   * character beyond ASCII, whose NFKC form differs and has a delimiter at
   * position `k`, is refused.
   */
  lemma NormalisedDelimiterRejected(netloc: string, k: nat, lib: UrlLib)
    requires forall i :: 0 <= i < |netloc| ==> netloc[i] !in "[]@:#?"
    requires exists i :: 0 <= i < |netloc| && netloc[i] as int >= 0x80
    requires lib.nfkc(netloc) != netloc
    requires k < |lib.nfkc(netloc)| && lib.nfkc(netloc)[k] in "/?#@:"
    ensures HostOfNetloc(netloc, lib) == Err(InvalidNfkc)
  {
    WithoutNone(netloc, "@:#?");
  }

  /** The account sign U+2100 normalises to "a/c", so a network location holding it is refused. */
  lemma AccountSignRejected(lib: UrlLib)
    requires lib.nfkc("a\U{2100}b") == "aa/cb"
    ensures HostOfNetloc("a\U{2100}b", lib) == Err(InvalidNfkc)
  {
    var netloc := "a\U{2100}b";
    assert netloc[1] as int == 0x2100;
    NormalisedDelimiterRejected(netloc, 2, lib);
  }

  /** So a URL such as `https://a\u2100b/` makes `urlsplit` raise. */
  lemma AccountSignRaises(scheme: string, path: string, lib: UrlLib)
    requires IsScheme(scheme) && !AnyUnsafe(scheme + "://" + "a\U{2100}b" + path)
    requires path == [] || IsNetlocEnd(path[0])
    requires lib.nfkc("a\U{2100}b") == "aa/cb"
    ensures Hostname(scheme + "://" + "a\U{2100}b" + path, lib) == Err(InvalidNfkc)
  {
    var netloc := "a\U{2100}b";
    assert forall i :: 0 <= i < |netloc| ==> !IsNetlocEnd(netloc[i]);
    HostnameOfParts(scheme, netloc, path, lib);
    AccountSignRejected(lib);
  }

  /**
   * A URL typed without a scheme and without "//" (say `www.site.org/x`)
   * has no network location, so its hostname is "".
   */
  lemma NoAuthorityNoHost(url: string, lib: UrlLib)
    requires url != [] && !IsC0OrSpace(url[0]) && url[0] != '/'
    requires ':' !in url && !AnyUnsafe(url)
    ensures Hostname(url, lib) == Ok([])
  {
    RemoveUnsafeKeeps(url);
  }
}
