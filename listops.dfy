/**
 * Sequence facts shared by the link queues: what is left of a list once a
 * selection of its indices is deleted, the URLs a run of downloads reports
 * as failed, and the URLs other threads append while a worker runs.
 */
module ListOps {

  /** The items of `s` from index `k` on whose index is not in `drop`, in order. */
  function KeptFrom<T>(s: seq<T>, drop: set<nat>, k: nat): seq<T>
    decreases |s| - k
  {
    if k >= |s| then []
    else (if k in drop then [] else [s[k]]) + KeptFrom(s, drop, k + 1)
  }

  /** The items of `s` whose index is not in `drop`, in their original order. */
  function Kept<T>(s: seq<T>, drop: set<nat>): seq<T> {
    KeptFrom(s, drop, 0)
  }

  /** Over a stretch of indices none of which is dropped, every item is kept. */
  lemma {:induction false} KeptFromClean<T>(s: seq<T>, drop: set<nat>, k: nat, b: nat)
    requires k <= b <= |s|
    requires forall d :: d in drop ==> !(k <= d < b)
    ensures KeptFrom(s, drop, k) == s[k..b] + KeptFrom(s, drop, b)
    decreases b - k
  {
    if k < b {
      assert k !in drop;
      KeptFromClean(s, drop, k + 1, b);
      calc {
        KeptFrom(s, drop, k);
        [s[k]] + KeptFrom(s, drop, k + 1);
        [s[k]] + (s[k + 1..b] + KeptFrom(s, drop, b));
        { assert s[k..b] == [s[k]] + s[k + 1..b]; }
        s[k..b] + KeptFrom(s, drop, b);
      }
    } else {
      assert s[k..b] == [];
    }
  }

  /** Only the dropped indices from `k` on matter to `KeptFrom(_, _, k)`. */
  lemma {:induction false} KeptFromAbove<T>(s: seq<T>, d1: set<nat>, d2: set<nat>, k: nat)
    requires forall j :: k <= j ==> (j in d1 <==> j in d2)
    ensures KeptFrom(s, d1, k) == KeptFrom(s, d2, k)
    decreases |s| - k
  {
    if k < |s| {
      KeptFromAbove(s, d1, d2, k + 1);
    }
  }

  /**
   * Deleting index `i` of the kept list, when every index dropped so far is
   * above `i`, is the same as also dropping `i` from the original list:
   * deleting in descending order never shifts an index still to be deleted.
   */
  lemma KeptDeleteStep<T>(s: seq<T>, drop: set<nat>, i: nat)
    requires i < |s|
    requires forall d :: d in drop ==> d > i
    ensures i < |Kept(s, drop)|
    ensures Kept(s, drop + {i}) == Kept(s, drop)[..i] + Kept(s, drop)[i + 1..]
  {
    var d2 := drop + {i};
    KeptFromClean(s, drop, 0, i);
    KeptFromClean(s, d2, 0, i);
    KeptFromAbove(s, drop, d2, i + 1);
    assert s[0..i] == s[..i];
    var rest := KeptFrom(s, drop, i + 1);
    assert KeptFrom(s, drop, i) == [s[i]] + rest;
    assert KeptFrom(s, d2, i) == rest;
    var pre := s[..i];
    var whole := pre + ([s[i]] + rest);
    assert Kept(s, drop) == whole;
    assert Kept(s, d2) == pre + rest;
    assert whole[..i] == pre;
    assert whole[i + 1..] == rest;
  }

  /** `curselection()`: indices in increasing order, each within the list. */
  predicate Selection(sel: seq<nat>, n: nat) {
    && (forall a, b :: 0 <= a < b < |sel| ==> sel[a] < sel[b])
    && (forall a :: 0 <= a < |sel| ==> sel[a] < n)
  }

  /** The indices a selection names. */
  function Chosen(sel: seq<nat>): set<nat> {
    set a | 0 <= a < |sel| :: sel[a]
  }

  /** Nothing selected, nothing removed. */
  lemma KeptNothing<T>(s: seq<T>)
    ensures Kept(s, {}) == s
  {
    KeptFromClean(s, {}, 0, |s|);
  }

  /** Removing a selection shortens the list by exactly the number of indices selected. */
  lemma {:induction false} KeptSelectionLength<T>(s: seq<T>, sel: seq<nat>)
    requires Selection(sel, |s|)
    ensures |Kept(s, Chosen(sel))| == |s| - |sel|
  {
    if sel == [] {
      assert Chosen(sel) == {};
      KeptNothing(s);
    } else {
      var rest := sel[1..];
      assert Selection(rest, |s|);
      KeptSelectionLength(s, rest);
      assert forall d :: d in Chosen(rest) ==> d > sel[0];
      KeptDeleteStep(s, Chosen(rest), sel[0]);
      assert Chosen(sel) == Chosen(rest) + {sel[0]};
    }
  }

  /** An item is kept exactly when it stands at some index that is not dropped. */
  lemma {:induction false} KeptFromMembers<T>(s: seq<T>, drop: set<nat>, k: nat, x: T)
    ensures x in KeptFrom(s, drop, k) <==> exists j :: k <= j < |s| && j !in drop && s[j] == x
    decreases |s| - k
  {
    if k < |s| {
      KeptFromMembers(s, drop, k + 1, x);
      if k !in drop && s[k] == x {
        assert x in KeptFrom(s, drop, k);
      }
      if exists j :: k <= j < |s| && j !in drop && s[j] == x {
        var j :| k <= j < |s| && j !in drop && s[j] == x;
        if j != k {
          assert k + 1 <= j;
        }
      }
    }
  }

  lemma KeptMembers<T>(s: seq<T>, drop: set<nat>, x: T)
    ensures x in Kept(s, drop) <==> exists j :: 0 <= j < |s| && j !in drop && s[j] == x
  {
    KeptFromMembers(s, drop, 0, x);
  }

  /** The URLs whose download fails, in the order they were tried. */
  function Failures(urls: seq<string>, download: string -> bool): seq<string> {
    if urls == [] then []
    else (if download(urls[0]) then [] else [urls[0]]) + Failures(urls[1..], download)
  }

  /**
   * A URL is reported exactly when it was tried and failed: a failure
   * neither hides another one nor stops the URLs after it being tried.
   */
  lemma {:induction false} FailuresMembers(urls: seq<string>, download: string -> bool, u: string)
    ensures u in Failures(urls, download) <==> u in urls && !download(u)
  {
    if urls != [] {
      FailuresMembers(urls[1..], download, u);
      assert urls == [urls[0]] + urls[1..];
    }
  }

  /** Failures of consecutive runs add up. */
  lemma {:induction false} FailuresConcat(a: seq<string>, b: seq<string>, download: string -> bool)
    ensures Failures(a + b, download) == Failures(a, download) + Failures(b, download)
  {
    if a == [] {
      assert a + b == b;
    } else {
      assert (a + b)[0] == a[0];
      assert (a + b)[1..] == a[1..] + b;
      FailuresConcat(a[1..], b, download);
    }
  }

  /** No more failures are reported than URLs tried. */
  lemma {:induction false} FailuresBounded(urls: seq<string>, download: string -> bool)
    ensures |Failures(urls, download)| <= |urls|
  {
    if urls != [] {
      FailuresBounded(urls[1..], download);
    }
  }

  /** What the other threads append during download step `k` (nothing past the end of `arrivals`). */
  function Arrival(arrivals: seq<seq<string>>, k: nat): seq<string> {
    if k < |arrivals| then arrivals[k] else []
  }

  /** Everything appended during the first `k` download steps, in order. */
  function ArrivedBefore(arrivals: seq<seq<string>>, k: nat): seq<string> {
    if k == 0 then [] else ArrivedBefore(arrivals, k - 1) + Arrival(arrivals, k - 1)
  }

  /** Without interference nothing is appended. */
  lemma {:induction false} NothingArrives(k: nat)
    ensures ArrivedBefore([], k) == []
  {
    if k > 0 {
      NothingArrives(k - 1);
    }
  }

  /** The total length of the arrivals from step `k` on, which bounds how long a drain can go. */
  function Pending(arrivals: seq<seq<string>>, k: nat): nat
    decreases |arrivals| - k
  {
    if k >= |arrivals| then 0 else |arrivals[k]| + Pending(arrivals, k + 1)
  }
}
