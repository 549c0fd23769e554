/**
  The windows store of the wry runtime: which windows exist, whether each still owns its native
  handle, and which webviews it lists. Every handler that touches the store is given here as a
  function of the store; the methods of `EventLoop` update the store in place and are proved
  against these functions.
 */
module WindowStore {

  type WindowId = nat
  type WebviewId = nat

  /** A window entry: `open` is "the native handle is present". */
  datatype Window = Window(open: bool, webviews: seq<WebviewId>)

  type Store = map<WindowId, Window>

  /** What the caller of a reparent observes: an `Ok`, an `Err`, or a sender dropped unused. */
  datatype Reply = Moved | Failed | Dropped

  /** The first position of `v`, as the handlers search for it. */
  function Position(vs: seq<WebviewId>, v: WebviewId): (i: nat)
    requires v in vs
    ensures i < |vs| && vs[i] == v && v !in vs[..i]
  {
    if vs[0] == v then 0 else
      var i := Position(vs[1..], v) + 1;
      assert forall k :: 1 <= k < i ==> vs[k] == vs[1..][..i - 1][k - 1];
      i
  }

  function RemoveAt(vs: seq<WebviewId>, i: nat): seq<WebviewId>
    requires i < |vs|
  {
    vs[..i] + vs[i + 1..]
  }

  ghost predicate NoDuplicates(vs: seq<WebviewId>) {
    forall i, j :: 0 <= i < j < |vs| ==> vs[i] != vs[j]
  }

  predicate Lists(store: Store, w: WindowId, v: WebviewId) {
    w in store && v in store[w].webviews
  }

  predicate IsOpen(store: Store, w: WindowId) {
    w in store && store[w].open
  }

  /** `v` is the newest webview of `w`. */
  predicate LastIn(store: Store, w: WindowId, v: WebviewId) {
    Lists(store, w, v) && store[w].webviews[|store[w].webviews| - 1] == v
  }

  function WithWebviews(store: Store, w: WindowId, vs: seq<WebviewId>): Store
    requires w in store
  {
    store[w := store[w].(webviews := vs)]
  }

  // ---- handlers, as functions of the store ----

  function InsertWindow(store: Store, w: WindowId, children: seq<WebviewId>): Store {
    store[w := Window(true, children)]
  }

  function AddWebview(store: Store, w: WindowId, v: WebviewId): Store {
    if IsOpen(store, w) then WithWebviews(store, w, store[w].webviews + [v]) else store
  }

  function TakeWebview(store: Store, w: WindowId, v: WebviewId): Store
    requires Lists(store, w, v)
  {
    WithWebviews(store, w, RemoveAt(store[w].webviews, Position(store[w].webviews, v)))
  }

  function CloseWebview(store: Store, w: WindowId, v: WebviewId): Store {
    if IsOpen(store, w) && v in store[w].webviews then TakeWebview(store, w, v) else store
  }

  /** The main-thread half of a reparent; `native` is the outcome of the platform call. */
  function Reparent(store: Store, w: WindowId, v: WebviewId, target: WindowId, native: bool): (Store, Reply) {
    if !Lists(store, w, v) then (store, Failed)
    else
      var taken := TakeWebview(store, w, v);
      if !IsOpen(taken, target) then (taken, Dropped)
      else if native then (AddWebview(taken, target, v), Moved)
      else (taken, Failed)
  }

  function DropHandle(store: Store, w: WindowId): Store {
    if w in store then store[w := store[w].(open := false)] else store
  }

  function RemoveWindow(store: Store, w: WindowId): Store {
    store - {w}
  }

  // ---- the multiset of webviews held anywhere ----

  ghost function AllWebviews(store: Store): multiset<WebviewId>
  {
    if store == map[] then multiset{} else
      var w :| w in store;
      multiset(store[w].webviews) + AllWebviews(store - {w})
  }

  /** The sum does not depend on the order in which windows are visited. */
  lemma {:induction false} AllWebviewsSplit(store: Store, w: WindowId)
    requires w in store
    ensures AllWebviews(store) == multiset(store[w].webviews) + AllWebviews(store - {w})
  {
    var p :| p in store && AllWebviews(store) == multiset(store[p].webviews) + AllWebviews(store - {p});
    if p != w {
      AllWebviewsSplit(store - {p}, w);
      AllWebviewsSplit(store - {w}, p);
      assert store - {p} - {w} == store - {w} - {p};
    }
  }

  lemma WithWebviewsSum(store: Store, w: WindowId, vs: seq<WebviewId>)
    requires w in store
    ensures AllWebviews(store) == AllWebviews(store - {w}) + multiset(store[w].webviews)
    ensures AllWebviews(WithWebviews(store, w, vs)) == AllWebviews(store - {w}) + multiset(vs)
  {
    var s' := WithWebviews(store, w, vs);
    AllWebviewsSplit(store, w);
    AllWebviewsSplit(s', w);
    assert s' - {w} == store - {w};
  }

  lemma RemoveAtMultiset(vs: seq<WebviewId>, i: nat)
    requires i < |vs|
    ensures multiset(RemoveAt(vs, i)) + multiset{vs[i]} == multiset(vs)
  {
    assert vs == vs[..i] + [vs[i]] + vs[i + 1..];
  }

  lemma TakeWebviewSum(store: Store, w: WindowId, v: WebviewId)
    requires Lists(store, w, v)
    ensures AllWebviews(TakeWebview(store, w, v)) + multiset{v} == AllWebviews(store)
  {
    var vs := store[w].webviews;
    var i := Position(vs, v);
    RemoveAtMultiset(vs, i);
    WithWebviewsSum(store, w, RemoveAt(vs, i));
  }

  lemma AddWebviewSum(store: Store, w: WindowId, v: WebviewId)
    requires IsOpen(store, w)
    ensures AllWebviews(AddWebview(store, w, v)) == AllWebviews(store) + multiset{v}
  {
    WithWebviewsSum(store, w, store[w].webviews + [v]);
  }

  /**
    Conservation: a successful move (also onto the same window) keeps the multiset of all webviews;
    a move that found its webview and did not succeed loses exactly that webview, whether the caller
    sees an error or a dropped sender; a move that did not find it changes nothing. Which of the three
    replies comes is decided by the two windows and the platform call.
   */
  lemma ReparentConserves(store: Store, w: WindowId, v: WebviewId, target: WindowId, native: bool)
    ensures var (s', r) := Reparent(store, w, v, target, native);
            && (r == Moved ==> AllWebviews(s') == AllWebviews(store) && LastIn(s', target, v))
            && (r != Moved && Lists(store, w, v) ==> AllWebviews(s') == AllWebviews(store) - multiset{v})
            && (!Lists(store, w, v) ==> s' == store && r == Failed)
            && (r == Dropped <==> Lists(store, w, v) && !IsOpen(store, target))
            && (r == Moved <==> Lists(store, w, v) && IsOpen(store, target) && native)
  {
    if Lists(store, w, v) {
      TakeWebviewSum(store, w, v);
      var taken := TakeWebview(store, w, v);
      if IsOpen(taken, target) {
        AddWebviewSum(taken, target, v);
        var vs := taken[target].webviews + [v];
        assert vs[|vs| - 1] == v;
      }
    }
  }

  // ---- uniqueness: no webview is listed twice, in one window or in two ----

  ghost predicate Unique(store: Store) {
    && (forall w :: w in store ==> NoDuplicates(store[w].webviews))
    && (forall w, u, v :: Lists(store, w, v) && Lists(store, u, v) ==> w == u)
  }

  lemma RemoveAtMembers(vs: seq<WebviewId>, i: nat, x: WebviewId)
    requires i < |vs| && NoDuplicates(vs)
    ensures x in RemoveAt(vs, i) <==> x in vs && x != vs[i]
    ensures NoDuplicates(RemoveAt(vs, i))
  {
    var r := RemoveAt(vs, i);
    assert forall k :: 0 <= k < |r| ==> r[k] == vs[if k < i then k else k + 1];
    if x in vs && x != vs[i] {
      var k :| 0 <= k < |vs| && vs[k] == x;
      assert r[if k < i then k else k - 1] == x;
    }
  }

  lemma TakeWebviewUnique(store: Store, w: WindowId, v: WebviewId)
    requires Unique(store) && Lists(store, w, v)
    ensures Unique(TakeWebview(store, w, v))
    ensures forall u, x :: Lists(TakeWebview(store, w, v), u, x) <==> Lists(store, u, x) && x != v
  {
    var vs := store[w].webviews;
    var s' := TakeWebview(store, w, v);
    forall u, x
      ensures Lists(s', u, x) <==> Lists(store, u, x) && x != v
    {
      RemoveAtMembers(vs, Position(vs, v), x);
      assert u != w && u in store ==> s'[u] == store[u];
      assert Lists(store, u, v) ==> u == w;
    }
    RemoveAtMembers(vs, Position(vs, v), v);
  }

  lemma AddWebviewUnique(store: Store, w: WindowId, v: WebviewId)
    requires Unique(store) && forall u :: !Lists(store, u, v)
    ensures Unique(AddWebview(store, w, v))
    ensures forall u, x :: Lists(AddWebview(store, w, v), u, x)
                           <==> Lists(store, u, x) || (u == w && x == v && IsOpen(store, w))
  {
    if IsOpen(store, w) {
      var vs := store[w].webviews;
      assert !Lists(store, w, v);
      assert NoDuplicates(vs + [v]);
      var s' := AddWebview(store, w, v);
      forall u, x
        ensures Lists(s', u, x) <==> Lists(store, u, x) || (u == w && x == v)
      {
        assert u != w && u in store ==> s'[u] == store[u];
      }
    }
  }

  /** Closing takes exactly that webview out of exactly that window, if the window is open. */
  lemma CloseWebviewUnique(store: Store, w: WindowId, v: WebviewId)
    requires Unique(store)
    ensures var s' := CloseWebview(store, w, v);
            && Unique(s') && s'.Keys == store.Keys
            && (forall u :: u in store ==> s'[u].open == store[u].open)
            && (forall u, x :: Lists(s', u, x) <==> Lists(store, u, x) && !(u == w && x == v && IsOpen(store, w)))
  {
    if IsOpen(store, w) && v in store[w].webviews { TakeWebviewUnique(store, w, v); }
  }

  /** Where every webview is after a reparent: only `v` can move, and only onto `target`. */
  lemma ReparentUnique(store: Store, w: WindowId, v: WebviewId, target: WindowId, native: bool)
    requires Unique(store)
    ensures var (s', r) := Reparent(store, w, v, target, native);
            && Unique(s') && s'.Keys == store.Keys
            && (forall u :: u in store ==> s'[u].open == store[u].open)
            && (forall u, x :: Lists(s', u, x) <==>
                  if x == v && Lists(store, w, v) then r == Moved && u == target else Lists(store, u, x))
  {
    if Lists(store, w, v) {
      TakeWebviewUnique(store, w, v);
      var taken := TakeWebview(store, w, v);
      if IsOpen(taken, target) {
        AddWebviewUnique(taken, target, v);
      }
    }
  }
}
