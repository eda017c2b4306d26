/** What it means that a resource serves a request, demand by demand. */
module Suits {
  import opened Resources

  /** The demands on scanouts and stereo, which only GPUs are asked for. Who states a
      preference for scanouts is not asked about stereo. */
  predicate SuitsGpu(a: Attrs, q: Req) {
    && (q.useScanOut == Some(true) ==> a.useScanOut == Some(true) && a.scanoutCaps.Some?)
    && (q.useScanOut == Some(false) ==> a.useScanOut == Some(false) || a.scanoutCaps.None?)
    && (q.useScanOut == None && q.allowStereo == Some(true) ==> a.allowStereo == Some(true) || a.allowStereo == None)
  }

  /** The resource is of the class, index, host and type asked for, as far as these are
      given, can be shared if that is asked for, and a GPU meets the further demands. */
  predicate SuitsReq(a: Attrs, q: Req) {
    && q.cls.Some? && a.key.cls == q.cls.value
    && (q.idx == None || q.idx == Some(a.key.idx)) && (q.host == None || q.host == Some(a.key.host))
    && (q.typ == None || q.typ == a.typ)
    && (q.shared ==> a.limit >= 2)
    && (a.key.cls == GPU ==> SuitsGpu(a, q))
  }

  /** Nobody has the resource, or it is in shared use with a slot left for one who shares. */
  predicate HasRoom(r: Res, q: Req) { r.owners == [] || (r.shared && q.shared && |r.owners| < r.attrs.limit) }

  lemma MatchMeans(a: Attrs, q: Req)
    ensures TypeSearchMatch(a, q) <==> SuitsReq(a, q)
  {
    match q.useScanOut { case None => case Some(wanted) => }
    match a.allowStereo { case None => case Some(allowed) => }
  }

  /** A request made from a resource is for this resource: another one matches it only in
      its place, if it is of the type the resource has, if any, can be shared if the
      resource is in shared use, and, for a GPU, is like it in scanouts and stereo. */
  lemma OwnRequestMeans(r: Res, a: Attrs)
    ensures TypeSearchMatch(a, AsRequest(r)) <==>
              && a.key == r.attrs.key && (r.attrs.typ.Some? ==> a.typ == r.attrs.typ) && (r.shared ==> a.limit >= 2)
              && (a.key.cls == GPU ==>
                    && (r.attrs.useScanOut == Some(true) ==> a.useScanOut == Some(true) && a.scanoutCaps.Some?)
                    && (r.attrs.useScanOut == Some(false) ==> a.useScanOut == Some(false) || a.scanoutCaps.None?)
                    && (r.attrs.useScanOut == None && r.attrs.allowStereo == Some(true) ==> a.allowStereo != Some(false)))
  {
    MatchMeans(a, AsRequest(r));
  }

  /** A resource whose sharing is safe serves a request exactly if it suits it and has
      room for it. */
  lemma AllocateMeans(r: Res, q: Req)
    requires Safe(r)
    ensures CanAllocate(r, q) <==> SuitsReq(r.attrs, q) && HasRoom(r, q)
  {
    MatchMeans(r.attrs, q);
  }

  /** What a resource handed out for a request is: it suits the request, the user has it,
      and it is shared, or his alone, as he asked. */
  predicate Meets(q: Req, r: Res, uid: nat) {
    SuitsReq(r.attrs, q) && uid in r.owners && r.shared == q.shared && (!q.shared ==> r.owners == [uid]) && |r.owners| <= r.attrs.limit
  }

  // ---------------------------------------------------------------- weights

  predicate WantsScanouts(a: Attrs) { a.key.cls == GPU && a.useScanOut == Some(true) }

  function WithIndex(r: Res, i: int): Res { r.(attrs := r.attrs.(key := r.attrs.key.(idx := i))) }

  function WithBias(r: Res, b: int): Res { r.(attrs := r.attrs.(bias := b)) }

  function Unused(r: Res): Res { r.(shared := false) }

  function WithoutScanouts(r: Res): Res { r.(attrs := r.attrs.(useScanOut := None)) }

  /** What a resource weighs, rule by rule. One without index, bias or anything special
      weighs nothing; a bias or an index adds itself, but X server 0 weighs ten thousand
      more; a GPU that is to scan out weighs a hundred more for each port it has and for
      each output set up; and a GPU in shared use one less for each share slot left. */
  lemma WeightRules(r: Res, b: int, i: int)
    ensures r.attrs.key.idx == 0 && r.attrs.bias == 0 && r.attrs.key.cls != Server && !WantsScanouts(r.attrs) && !r.shared ==> Weight(r) == 0
    ensures Weight(WithBias(r, b)) == Weight(r) + b - r.attrs.bias
    ensures r.attrs.key.cls != Server || (i == 0 <==> r.attrs.key.idx == 0) ==> Weight(WithIndex(r, i)) == Weight(r) + i - r.attrs.key.idx
    ensures r.attrs.key.cls == Server && i == 0 && r.attrs.key.idx != 0 ==> Weight(WithIndex(r, i)) == Weight(r) - r.attrs.key.idx + 10000
    ensures WantsScanouts(r.attrs) ==>
              Weight(r) == Weight(WithoutScanouts(r)) + 100 * r.attrs.scanouts
                           + if r.attrs.scanoutCaps.Some? then 100 * r.attrs.scanoutCaps.value else 0
    ensures r.shared ==> Weight(r) == Weight(Unused(r)) - if r.attrs.key.cls == GPU then r.attrs.limit - |r.owners| else 0
  {
  }
}
