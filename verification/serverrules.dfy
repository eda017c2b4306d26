/** Which server trees can be read back, and what comes back, spelled out field by field. */
module ServerRules {
  import opened Resources
  import opened XmlTree
  import opened ServerParts
  import opened ServerTree
  import opened ServerRoundTrip

  // ------------------------------------------------------ what can be read

  /** Absent, or not empty. */
  predicate NotBlank(s: Option<string>) { s.Some? ==> |s.value| > 0 }

  predicate OneOf(s: Option<string>, allowed: set<string>) { s.None? || s.value in allowed }

  /** An input device can be read back if no text is empty, each option has a name and a
      value, and a driver is given for them. */
  lemma InputRules(d: InputDesc)
    ensures InputOk(d) <==>
              && NotBlank(d.common.host) && NotBlank(d.typ) && NotBlank(d.driver) && NotBlank(d.physAddr)
              && forall o <- d.options :: |o.0| > 0 && o.1.Some? && |o.1.value| > 0 && d.driver.Some?
  {
    if d.options != [] { assert d.options[0] in d.options; }
  }

  /** An SLI bridge is of no type or one of two, in no mode or one of five, and not discrete
      in mosaic mode. */
  lemma SliRules(s: SliDesc)
    ensures SliOk(s) <==>
              && NotBlank(s.common.host) && OneOf(s.typ, {"discrete", "quadroplex"})
              && OneOf(s.mode, {"auto", "SFR", "AFR", "AA", "mosaic"}) && !(s.typ == Some("discrete") && s.mode == Some("mosaic"))
  {
  }

  /** An output has a port that is not negative, no type or one of two, and a device. */
  lemma OutputRules(c: (int, Scanout))
    ensures ServerParts.ScanoutOk(c) <==>
              0 <= c.0 && OneOf(c.1.typ, {"digital", "analog"}) && |c.1.device| > 0 && NotBlank(c.1.mode)
  {
  }

  predicate Between(low: int, p: Option<int>, high: int) { p.Some? ==> low <= p.value <= high }

  /** A screen is within 304 by 200 and 8192 by 8192, not at a negative position, and in a
      known stereo mode and rotation. */
  lemma PropsRules(p: Props)
    ensures PropsOk(p) <==>
              && (p.resolution.Some? ==> 304 <= p.resolution.value.0 <= 8192 && 200 <= p.resolution.value.1 <= 8192)
              && (p.position.Some? ==> 0 <= p.position.value.0 && 0 <= p.position.value.1)
              && OneOf(p.stereo, {"none", "active", "passive", "SeeReal_stereo_dfp", "Sharp3D_stereo_dfp"})
              && OneOf(p.rotate, {"none", "portrait", "inverted_portrait", "inverted_landscape"})
  {
  }

  /** A GPU gives both limits or none, types for each port it describes, and outputs within
      one more than those ports; its shared server, if it has an index, can be read. */
  lemma GpuRules(g: GpuDesc)
    ensures GpuOk(g) <==>
              && NotBlank(g.common.host) && NotBlank(g.facts.model) && NotBlank(g.facts.busID) && NotBlank(g.facts.vendor)
              && (g.facts.maxWidth.Some? <==> g.facts.maxHeight.Some?)
              && (g.caps.Some? ==> forall c <- g.caps.value, x <- c.1 :: |x| > 0)
              && (forall c <- g.scanouts :: ServerParts.ScanoutOk(c) && (g.caps.Some? && |g.caps.value| > 0 ==> c.0 <= |g.caps.value|))
              && (g.serverIdx.Some? ==> ServerOk(g.server))
  {
    if g.caps.Some? { forall c <- g.caps.value ensures CapOk(c) <==> forall x <- c.1 :: |x| > 0 { NoneEmptyMeans(c.1); } }
  }

  lemma NoneEmptyMeans(xs: seq<string>)
    ensures NoneEmpty(xs) <==> forall x <- xs :: |x| > 0
  {
  }

  /** A screen has a GPU, and all its parts can be read. */
  lemma ScreenRules(s: ScreenDesc)
    ensures ScreenOk(s) <==>
              |s.gpus| > 0 && PropsOk(s.props) && (s.combiner.Some? ==> SliOk(s.combiner.value)) && forall g <- s.gpus :: GpuOk(g)
  {
  }

  /** A server's arguments have names, its options are those of the composite extension,
      with values, a virtual one has no screens, and all its parts can be read. */
  lemma ServerRules(s: ServerDesc)
    ensures ServerOk(s) <==>
              && NotBlank(s.common.host)
              && (forall a <- s.args :: |a.0| > 0 && NotBlank(a.1)) && (forall m <- s.modules :: |m| > 0)
              && (forall o <- s.options :: o.0 == "Composite" && o.1.Some? && |o.1.value| > 0)
              && (s.keyboard.Some? ==> InputOk(s.keyboard.value)) && (s.mouse.Some? ==> InputOk(s.mouse.value))
              && (s.virtual ==> |s.screens| == 0) && forall e <- s.screens :: ScreenOk(e.1)
  {
    NoneEmptyMeans(s.modules);
  }

  // ------------------------------------------------------- what comes back

  /** The same but for a bias, which is 0 if it was not given. */
  ghost predicate SameButBias(c: Common, back: Common) {
    && back.owners == c.owners && back.limit == c.limit && back.shared == c.shared && back.host == c.host && back.idx == c.idx
    && back.bias.Some? && (c.bias.Some? ==> back.bias == c.bias) && (c.bias.None? ==> back.bias.value == 0)
  }

  lemma CommonComesBack(c: Common)
    ensures SameButBias(c, CommonBack(c))
  {
  }

  /** An input device comes back as it was, an SLI bridge of a screen without the GPUs it
      joins. */
  lemma DeviceComesBack(d: InputDesc, s: SliDesc)
    ensures var i := InputBack(d);
            SameButBias(d.common, i.common) && i.typ == d.typ && i.driver == d.driver && i.options == d.options && i.physAddr == d.physAddr
    ensures var b := SliBack(s, false);
            SameButBias(s.common, b.common) && b.typ == s.typ && b.mode == s.mode && b.gpu0.None? && b.gpu1.None?
    ensures var b := SliBack(s, true);
            SameButBias(s.common, b.common) && b.typ == s.typ && b.mode == s.mode && b.gpu0 == s.gpu0 && b.gpu1 == s.gpu1
  {
  }

  /** A GPU comes back with what it had, able to go without scanouts unless it said
      otherwise, and without an empty description of ports. Its shared server, if it has an
      index, is shared, on the GPU's host, with the GPU's limit and that index; without an
      index it is one as new. */
  lemma GpuComesBack(g: GpuDesc)
    ensures var b := GpuBack(g);
            && SameButBias(g.common, b.common) && b.scanouts == g.scanouts && b.serverIdx == g.serverIdx
            && (b.caps == if g.caps.Some? && |g.caps.value| > 0 then g.caps else None)
            && b.facts.model == g.facts.model && b.facts.busID == g.facts.busID && b.facts.vendor == g.facts.vendor
            && b.facts.useScanOut == g.facts.useScanOut && b.facts.allowStereo == g.facts.allowStereo
            && b.facts.maxWidth == g.facts.maxWidth && b.facts.maxHeight == g.facts.maxHeight
            && b.facts.allowNoScanOut == Some(g.facts.allowNoScanOut.None? || g.facts.allowNoScanOut.value)
  {
  }

  lemma GpuServerComesBack(g: GpuDesc)
    ensures var b := GpuBack(g).server;
            if g.serverIdx.Some? then
              && b.common.shared && b.common.host == g.common.host && b.common.limit == g.common.limit && b.common.idx == g.serverIdx
              && b.common.owners == g.server.common.owners && b.virtual == g.server.virtual && b.args == g.server.args
              && b.modules == g.server.modules && b.options == g.server.options && b.combine == g.server.combine
              && b.screens == ScreensBack(g.server.screens)
            else b == DefaultServer()
  {
    if g.serverIdx.Some? { ServerComesBack(g.server); }
  }

  /** A server comes back with what it had, its parts as they come back. */
  lemma ServerComesBack(s: ServerDesc)
    ensures var b := ServerBack(s);
            && SameButBias(s.common, b.common) && b.virtual == s.virtual && b.args == s.args && b.modules == s.modules
            && b.options == s.options && b.combine == s.combine
            && b.keyboard == (if s.keyboard.Some? then Some(InputBack(s.keyboard.value)) else None)
            && b.mouse == (if s.mouse.Some? then Some(InputBack(s.mouse.value)) else None)
            && |b.screens| == |s.screens|
  {
  }

  /** Screens come back with their numbers and properties, and as many GPUs. */
  lemma {:induction false} ScreensComeBack(l: seq<(int, ScreenDesc)>)
    ensures |ScreensBack(l)| == |l| && forall i | 0 <= i < |l| ::
              var b, e := ScreensBack(l)[i], l[i];
              && b.0 == e.0 && b.1.props == e.1.props
              && b.1.combiner == (if e.1.combiner.Some? then Some(SliBack(e.1.combiner.value, false)) else None)
              && |b.1.gpus| == |e.1.gpus| && forall k | 0 <= k < |e.1.gpus| :: b.1.gpus[k] == GpuBack(e.1.gpus[k])
    decreases |l|
  {
    if l != [] {
      ScreensComeBack(l[1..]);
      GpusComeBack(l[0].1.gpus);
    }
  }

  lemma {:induction false} GpusComeBack(gs: seq<GpuDesc>)
    ensures |GpusBack(gs)| == |gs| && forall k | 0 <= k < |gs| :: GpusBack(gs)[k] == GpuBack(gs[k])
    decreases |gs|
  {
    if gs != [] { GpusComeBack(gs[1..]); }
  }
}
