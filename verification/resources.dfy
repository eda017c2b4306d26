/** Visualization resources: what a request may ask for, when a managed
    resource can serve it, and what serving it does to the resource.

    A managed resource is shared between users in one of two ways: exclusively
    (one owner) or shared (up to a share limit). The central fact of this module
    is that a batch of requests served by one resource in some order is served
    by it in every order. */
module Resources {

  datatype Option<+T> = None | Some(value: T)

  /** The five kinds of resource a node may carry. */
  datatype ResClass = GPU | Server | Keyboard | Mouse | SLI

  /** The hash key of a resource: class, index and host name. */
  datatype Key = Key(cls: ResClass, idx: int, host: string)

  /** A requested resource. An unset index or host leaves the allocator a degree
      of freedom; a class of None stands for a kind of resource no node carries. */
  datatype Req = Req(cls: Option<ResClass>, idx: Option<int>, host: Option<string>, typ: Option<string>,
                     shared: bool, useScanOut: Option<bool>, allowStereo: Option<bool>)

  type ShareLimit = n: int | 1 <= n witness 1

  /** What allocation never changes about a managed resource. */
  datatype Attrs = Attrs(key: Key, typ: Option<string>, limit: ShareLimit, bias: int,
                         useScanOut: Option<bool>, scanoutCaps: Option<nat>, scanouts: nat,
                         allowStereo: Option<bool>)

  /** A managed resource. serverOwners are the owners of a GPU's shared X server. */
  datatype Res = Res(attrs: Attrs, owners: seq<nat>, shared: bool, serverOwners: seq<nat>) {
    function Key(): Key { attrs.key }
  }

  // ---------------------------------------------------------------- requests

  /** Degrees of freedom: 0 fixed, 1 index only, 2 host only, 3 neither. */
  function DOF(q: Req): nat {
    3 - (if q.idx.Some? then 2 else 0) - (if q.host.Some? then 1 else 0)
  }

  function OnHost(q: Req, host: string): Req { q.(host := Some(host)) }

  /** The request once a resource has been picked for it. */
  function Resolve(q: Req, key: Key): Req { q.(idx := Some(key.idx), host := Some(key.host)) }

  /** A managed resource read as a request, as whole-node allocation does. */
  function AsRequest(r: Res): Req {
    Req(Some(r.attrs.key.cls), Some(r.attrs.key.idx), Some(r.attrs.key.host), r.attrs.typ, r.shared,
        r.attrs.useScanOut, r.attrs.allowStereo)
  }

  predicate Keyed(q: Req) { q.cls.Some? && q.idx.Some? && q.host.Some? }

  function KeyOf(q: Req): Key
    requires Keyed(q)
  {
    Key(q.cls.value, q.idx.value, q.host.value)
  }

  // ---------------------------------------------------------------- matching

  predicate Sharable(a: Attrs) { a.limit > 1 }

  /** The extra demands a GPU request makes. A scanout preference decides alone:
      when it is stated, the stereo demand is not looked at. */
  predicate GpuMatch(a: Attrs, q: Req) {
    if q.useScanOut == Some(true) then a.scanoutCaps.Some? && a.useScanOut == Some(true)
    else if q.useScanOut == Some(false) then a.scanoutCaps.None? || a.useScanOut == Some(false)
    else !(a.allowStereo == Some(false) && q.allowStereo == Some(true))
  }

  predicate TypeSearchMatch(a: Attrs, q: Req) {
    && q.cls == Some(a.key.cls)
    && (q.idx.Some? ==> q.idx.value == a.key.idx)
    && (q.typ.Some? ==> q.typ == a.typ)
    && (q.host.Some? ==> q.host.value == a.key.host)
    && (q.shared ==> Sharable(a))
    && (a.key.cls == GPU ==> GpuMatch(a, q))
  }

  /** Room for one more owner. The comparison is an inequation, as in the source. */
  predicate IsFree(r: Res) { |r.owners| != if r.shared then r.attrs.limit else 1 }

  predicate CanAllocate(r: Res, q: Req) {
    && TypeSearchMatch(r.attrs, q)
    && IsFree(r)
    && !(q.shared && !Sharable(r.attrs))
    && !(r.shared && !q.shared)
  }

  predicate RefersToTheSame(r: Res, q: Req) {
    q.cls == Some(r.Key().cls) && q.idx == Some(r.Key().idx) && q.host == Some(r.Key().host)
  }

  /** The resource after user uid has been granted request q on it. */
  function Grow(r: Res, q: Req, uid: nat): Res {
    r.(owners := r.owners + [uid],
       shared := r.shared || (q.shared && Sharable(r.attrs)),
       serverOwners := if r.Key().cls == GPU then r.serverOwners + [uid] else r.serverOwners)
  }

  function RemoveFirst(s: seq<nat>, x: nat): seq<nat>
    requires x in s
  {
    if s[0] == x then s[1..] else [s[0]] + RemoveFirst(s[1..], x)
  }

  /** A GPU gives up the owner of its shared X server as well as its own. */
  predicate CanShrink(r: Res, uid: nat) {
    uid in r.owners && (r.Key().cls == GPU ==> uid in r.serverOwners)
  }

  function Shrink(r: Res, uid: nat): Res
    requires CanShrink(r, uid)
  {
    var owners := RemoveFirst(r.owners, uid);
    r.(owners := owners,
       shared := r.shared && owners != [],
       serverOwners := if r.Key().cls == GPU then RemoveFirst(r.serverOwners, uid) else r.serverOwners)
  }

  lemma {:induction false} RemoveFirstTakesOne(s: seq<nat>, x: nat)
    requires x in s
    ensures multiset(RemoveFirst(s, x)) == multiset(s) - multiset{x}
    ensures |RemoveFirst(s, x)| == |s| - 1
  {
    assert s == [s[0]] + s[1..];
    if s[0] != x { RemoveFirstTakesOne(s[1..], x); }
  }

  // ---------------------------------------------------------------- sharing

  /** Sharing safety: exclusive resources have at most one owner, shared ones
      between one and the limit, and a GPU's X server has the GPU's owners.
      (Only GPUs have a shared X server.) */
  predicate Safe(r: Res) {
    && (if r.shared then Sharable(r.attrs) && 1 <= |r.owners| <= r.attrs.limit else |r.owners| <= 1)
    && r.serverOwners == (if r.Key().cls == GPU then r.owners else [])
  }

  lemma GrowSafe(r: Res, q: Req, uid: nat)
    requires Safe(r) && CanAllocate(r, q)
    ensures Safe(Grow(r, q, uid))
    ensures !q.shared ==> Grow(r, q, uid).owners == [uid] && !Grow(r, q, uid).shared
    ensures q.shared ==> Grow(r, q, uid).shared
  {
  }

  lemma ShrinkSafe(r: Res, uid: nat)
    requires Safe(r) && uid in r.owners
    ensures CanShrink(r, uid) && Safe(Shrink(r, uid))
  {
    RemoveFirstTakesOne(r.owners, uid);
  }

  // ---------------------------------------------------------------- batches

  /** Serving a batch one request at a time; None when some request is refused. */
  function Replay(r: Res, qs: seq<Req>, uid: nat): Option<Res>
    decreases |qs|
  {
    if qs == [] then Some(r)
    else if CanAllocate(r, qs[0]) then Replay(Grow(r, qs[0], uid), qs[1..], uid)
    else None
  }

  /** A batch fits when every request matches and it is either one exclusive
      request on an unshared, unowned resource, or shared requests only, no more
      than the slots left. The order of the batch plays no part. */
  predicate Fits(r: Res, qs: seq<Req>) {
    && (forall q <- qs :: TypeSearchMatch(r.attrs, q))
    && (qs != [] ==>
          && IsFree(r)
          && ((|qs| == 1 && !qs[0].shared && !r.shared)
              || ((forall q <- qs :: q.shared) && |r.owners| + |qs| <= r.attrs.limit)))
  }

  function Copies(uid: nat, n: nat): seq<nat> { seq(n, _ => uid) }

  /** The resource after a fitting batch. */
  function Grown(r: Res, qs: seq<Req>, uid: nat): Res {
    r.(owners := r.owners + Copies(uid, |qs|),
       shared := r.shared || (exists q <- qs :: q.shared),
       serverOwners := if r.Key().cls == GPU then r.serverOwners + Copies(uid, |qs|) else r.serverOwners)
  }

  /** A batch is served exactly when it fits, and then its effect is Grown. */
  lemma {:induction false} ReplayIffFits(r: Res, qs: seq<Req>, uid: nat)
    requires Safe(r)
    ensures Replay(r, qs, uid).Some? <==> Fits(r, qs)
    ensures Fits(r, qs) ==> Replay(r, qs, uid) == Some(Grown(r, qs, uid)) && Safe(Grown(r, qs, uid))
    decreases |qs|
  {
    if qs == [] {
      assert Copies(uid, 0) == [];
      assert r.owners + [] == r.owners && r.serverOwners + [] == r.serverOwners;
    } else if CanAllocate(r, qs[0]) {
      var r', rest := Grow(r, qs[0], uid), qs[1..];
      GrowSafe(r, qs[0], uid);
      ReplayIffFits(r', rest, uid);
      assert qs == [qs[0]] + rest;
      assert r.owners + Copies(uid, |qs|) == r'.owners + Copies(uid, |rest|);
      assert r.serverOwners + Copies(uid, |qs|) == (r.serverOwners + [uid]) + Copies(uid, |rest|);
      if Fits(r', rest) {
        assert Grown(r, qs, uid) == Grown(r', rest, uid);
        assert forall q <- qs :: q == qs[0] || q in rest;
      }
    }
  }

  /** Order independence: a batch that is served in one order is served in every
      order, with the same effect. */
  lemma BatchOrderIrrelevant(r: Res, qs: seq<Req>, ps: seq<Req>, uid: nat)
    requires Safe(r) && multiset(qs) == multiset(ps)
    ensures Replay(r, qs, uid) == Replay(r, ps, uid)
  {
    ReplayIffFits(r, qs, uid);
    ReplayIffFits(r, ps, uid);
    assert |qs| == |multiset(qs)| == |multiset(ps)| == |ps|;
    assert forall q :: q in qs <==> q in multiset(qs);
    assert forall q :: q in ps <==> q in multiset(ps);
  }

  /** Replaying a concatenation is replaying its parts in turn. */
  lemma {:induction false} ReplayAppend(r: Res, qs: seq<Req>, ps: seq<Req>, uid: nat)
    ensures Replay(r, qs + ps, uid)
         == (match Replay(r, qs, uid) case Some(r') => Replay(r', ps, uid) case None => None)
    decreases |qs|
  {
    if qs == [] {
      assert qs + ps == ps;
    } else {
      assert (qs + ps)[0] == qs[0] && (qs + ps)[1..] == qs[1..] + ps;
      if CanAllocate(r, qs[0]) { ReplayAppend(Grow(r, qs[0], uid), qs[1..], ps, uid); }
    }
  }

  // ---------------------------------------------------------------- self match

  /** A managed resource matches a request made from itself unless it is a GPU
      that insists on scanouts without having any scanout capability. */
  lemma SelfMatch(r: Res)
    requires Safe(r)
    ensures TypeSearchMatch(r.attrs, AsRequest(r))
      <==> !(r.Key().cls == GPU && r.attrs.useScanOut == Some(true) && r.attrs.scanoutCaps.None?)
  {
  }

  // ---------------------------------------------------------------- weights

  /** The weight the allocator sorts by: cheaper resources are handed out first. */
  function Weight(r: Res): int {
    r.attrs.bias + r.Key().idx
    + (if r.Key().cls == Server && r.Key().idx == 0 then 10000 else 0)
    + (if r.Key().cls == GPU && r.attrs.useScanOut == Some(true)
       then 100 * (if r.attrs.scanoutCaps.Some? then r.attrs.scanoutCaps.value else 0) + 100 * r.attrs.scanouts
       else 0)
    - (if r.Key().cls == GPU && r.shared then r.attrs.limit - |r.owners| else 0)
  }
}
