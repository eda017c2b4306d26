/** Validating whole screens and whole configurations, and what an accepted
    configuration is sure to have. */
module XScreens {
  import opened Resources
  import opened XConfig
  import opened XValidate
  import opened XStored

  function GpusOf(ds: seq<Display>, nodes: seq<GpuNode>): seq<FbGpu> {
    seq(|nodes|, i requires 0 <= i < |nodes| => GpuOf(ds, nodes[i]))
  }

  /** The uses of ports on the GPUs of a screen. */
  function ScreenUses(gs: seq<FbGpu>): seq<Use> {
    if gs == [] then [] else ScreenUses(gs[..|gs| - 1]) + UsesOf(gs[|gs| - 1])
  }

  /** The rules for a screen, apart from repeated ports. */
  predicate FbOk(ds: seq<Display>, ext: seq<OptVal>, bridges: seq<Bridge>, gpus: seq<GpuInfo>, fb: FbNode) {
    && (forall k | 0 <= k < |fb.gpus| :: GpuOk(ds, ext, gpus, fb, k, fb.gpus[k]))
    && InRange(gpus, GpusOf(ds, fb.gpus))
    && SizeOk(gpus, fb, GpusOf(ds, fb.gpus))
    && CombinerOk(bridges, fb, GpusOf(ds, fb.gpus))
  }

  predicate InRange(gpus: seq<GpuInfo>, gs: seq<FbGpu>) { forall g <- gs :: g.index < |gpus| }

  function FbOf(ds: seq<Display>, bridges: seq<Bridge>, fb: FbNode): Framebuffer {
    var gs := GpusOf(ds, fb.gpus);
    Framebuffer(fb.index, FinalWidth(fb, gs), FinalHeight(fb, gs), fb.stereo, fb.rotated, gs, UsedBridge(bridges, fb))
  }

  lemma NodesHaveModes(ds: seq<Display>, ext: seq<OptVal>, gpus: seq<GpuInfo>, fb: FbNode, k: nat, g: GpuNode)
    requires GpuOk(ds, ext, gpus, fb, k, g)
    ensures GpuStored(ds, g, GpuOf(ds, g))
  {
    GpuIsStored(ds, g, GpuOf(ds, g));
    forall j | 0 <= j < |g.scanouts|
      ensures ModeOf(ds, g.scanouts[j].device, ModeName(ds, g.scanouts[j])).Some?
    {
      assert NodeOk(ds, fb, |gpus[g.index].portUsage|, g.scanouts[j]);
    }
  }

  /** What is made of a screen that meets the rules is what is to be stored for it. */
  lemma FbOfIsStored(ds: seq<Display>, ext: seq<OptVal>, bridges: seq<Bridge>, gpus: seq<GpuInfo>, fb: FbNode)
    requires FbOk(ds, ext, bridges, gpus, fb)
    ensures FbStored(ds, bridges, fb, FbOf(ds, bridges, fb))
  {
    var out := FbOf(ds, bridges, fb);
    forall k | 0 <= k < |fb.gpus|
      ensures GpuStored(ds, fb.gpus[k], out.gpus[k])
    {
      NodesHaveModes(ds, ext, gpus, fb, k, fb.gpus[k]);
    }
    SizeIsStored(fb, out);
  }

  lemma FbsAreStored(ds: seq<Display>, ext: seq<OptVal>, bridges: seq<Bridge>, gpus: seq<GpuInfo>, nodes: seq<FbNode>)
    requires forall fb <- nodes :: FbOk(ds, ext, bridges, gpus, fb)
    ensures AllStored(ds, bridges, nodes, Fbs(ds, bridges, nodes))
  {
    forall i | 0 <= i < |nodes|
      ensures FbStored(ds, bridges, nodes[i], Fbs(ds, bridges, nodes)[i])
    {
      assert nodes[i] in nodes;
      FbOfIsStored(ds, ext, bridges, gpus, nodes[i]);
    }
  }

  // ------------------------------------------------- what rules depend on

  lemma GpuOkBySize(ds: seq<Display>, ext: seq<OptVal>, a: seq<GpuInfo>, b: seq<GpuInfo>, fb: FbNode, k: nat, g: GpuNode)
    requires SameGpus(a, b)
    ensures GpuOk(ds, ext, a, fb, k, g) == GpuOk(ds, ext, b, fb, k, g)
  {
  }

  lemma SizeOkBySize(a: seq<GpuInfo>, b: seq<GpuInfo>, fb: FbNode, gs: seq<FbGpu>)
    requires SameGpus(a, b) && InRange(a, gs)
    ensures InRange(b, gs) && SizeOk(a, fb, gs) == SizeOk(b, fb, gs)
  {
  }

  ghost predicate SameBridges(a: seq<Bridge>, b: seq<Bridge>) {
    |a| == |b| && forall i | 0 <= i < |a| :: a[i] == b[i].(mode := a[i].mode)
  }

  lemma FbOkByHardware(ds: seq<Display>, ext: seq<OptVal>, a: seq<GpuInfo>, b: seq<GpuInfo>, p: seq<Bridge>, q: seq<Bridge>, fb: FbNode)
    requires SameGpus(a, b) && SameBridges(p, q)
    ensures FbOk(ds, ext, p, a, fb) == FbOk(ds, ext, q, b, fb)
    ensures FbOf(ds, p, fb) == FbOf(ds, q, fb)
  {
    var gs := GpusOf(ds, fb.gpus);
    forall k | 0 <= k < |fb.gpus| ensures GpuOk(ds, ext, a, fb, k, fb.gpus[k]) == GpuOk(ds, ext, b, fb, k, fb.gpus[k]) {
      GpuOkBySize(ds, ext, a, b, fb, k, fb.gpus[k]);
    }
    if InRange(a, gs) { SizeOkBySize(a, b, fb, gs); }
  }

  lemma SameGpusSym(a: seq<GpuInfo>, b: seq<GpuInfo>)
    requires SameGpus(a, b)
    ensures SameGpus(b, a)
  {
  }

  // ---------------------------------------------------------- GPUs of a screen

  ghost predicate GpusOk(ds: seq<Display>, ext: seq<OptVal>, gpus: seq<GpuInfo>, fb: FbNode, n: nat)
    requires n <= |fb.gpus|
  {
    forall k | 0 <= k < n :: GpuOk(ds, ext, gpus, fb, k, fb.gpus[k])
  }

  function Indices(nodes: seq<GpuNode>): seq<u32> { seq(|nodes|, i requires 0 <= i < |nodes| => nodes[i].index) }

  lemma CountedOn(a: seq<GpuInfo>, b: seq<GpuInfo>, c: seq<GpuInfo>, xs: seq<u32>, ys: seq<u32>)
    requires |a| == |b| == |c| && Counted(b, a, xs) && Counted(c, b, ys)
    ensures Counted(c, a, xs + ys)
  {
  }

  lemma GpusOfNext(ds: seq<Display>, nodes: seq<GpuNode>, n: nat)
    requires n < |nodes|
    ensures GpusOf(ds, nodes[..n + 1]) == GpusOf(ds, nodes[..n]) + [GpuOf(ds, nodes[n])]
    ensures Indices(nodes[..n + 1]) == Indices(nodes[..n]) + [nodes[n].index]
  {
  }

  lemma ScreenUsesNext(uses: seq<Use>, gs: seq<FbGpu>, g: FbGpu)
    ensures uses + ScreenUses(gs + [g]) == uses + ScreenUses(gs) + UsesOf(g)
  {
    assert (gs + [g])[..|gs|] == gs;
  }

  lemma ClashStays(a: seq<Use>, rest: seq<Use>, whole: seq<Use>)
    requires whole == a + rest && !PortsDiffer(a)
    ensures !PortsDiffer(whole)
  {
    if PortsDiffer(whole) { PortsDifferPrefix(a, rest); }
  }

  /** State after n GPUs of a screen. */
  ghost predicate Through(ds: seq<Display>, ext: seq<OptVal>, fb: FbNode, gpus0: seq<GpuInfo>, uses: seq<Use>, n: nat,
                          gpus: seq<GpuInfo>, out: seq<FbGpu>)
    requires n <= |fb.gpus|
  {
    && out == GpusOf(ds, fb.gpus[..n]) && GpusOk(ds, ext, gpus0, fb, n)
    && SameGpus(gpus0, gpus) && Agrees(gpus, uses + ScreenUses(out)) && Counted(gpus, gpus0, Indices(fb.gpus[..n]))
  }

  lemma ThroughNext(ds: seq<Display>, ext: seq<OptVal>, fb: FbNode, gpus0: seq<GpuInfo>, uses: seq<Use>, n: nat,
                    gpus: seq<GpuInfo>, out: seq<FbGpu>, gpus': seq<GpuInfo>)
    requires n < |fb.gpus| && Through(ds, ext, fb, gpus0, uses, n, gpus, out)
    requires SameGpus(gpus, gpus') && GpuOk(ds, ext, gpus, fb, n, fb.gpus[n])
    requires Agrees(gpus', uses + ScreenUses(out) + UsesOf(GpuOf(ds, fb.gpus[n]))) && Counted(gpus', gpus, [fb.gpus[n].index])
    ensures Through(ds, ext, fb, gpus0, uses, n + 1, gpus', out + [GpuOf(ds, fb.gpus[n])])
  {
    ScreenUsesNext(uses, out, GpuOf(ds, fb.gpus[n]));
    GpusOfNext(ds, fb.gpus, n);
    CountedOn(gpus0, gpus, gpus', Indices(fb.gpus[..n]), [fb.gpus[n].index]);
    SameGpusTrans(gpus0, gpus, gpus');
    GpuOkBySize(ds, ext, gpus0, gpus, fb, n, fb.gpus[n]);
  }

  lemma {:induction false} ScreenUsesPrefix(gs: seq<FbGpu>, n: nat) returns (rest: seq<Use>)
    requires n <= |gs|
    ensures ScreenUses(gs) == ScreenUses(gs[..n]) + rest
    decreases |gs| - n
  {
    if n == |gs| {
      rest := [];
      assert gs[..n] == gs;
    } else {
      var later := ScreenUsesPrefix(gs, n + 1);
      assert gs[..n + 1][..n] == gs[..n];
      rest := UsesOf(gs[n]) + later;
    }
  }

  lemma GpuSplit(uses: seq<Use>, gs: seq<FbGpu>, n: nat) returns (rest: seq<Use>)
    requires n < |gs|
    ensures uses + ScreenUses(gs) == (uses + ScreenUses(gs[..n]) + UsesOf(gs[n])) + rest
  {
    rest := ScreenUsesPrefix(gs, n + 1);
    assert gs[..n + 1][..n] == gs[..n];
    var a, b := ScreenUses(gs[..n]), UsesOf(gs[n]);
    assert ScreenUses(gs) == (a + b) + rest;
    assert uses + ((a + b) + rest) == ((uses + a) + b) + rest;
  }

  /** A clash on some GPU of a screen is a clash of the screen. */
  lemma LaterGpuClash(uses: seq<Use>, gs: seq<FbGpu>, n: nat)
    requires n < |gs| && !PortsDiffer(uses + ScreenUses(gs[..n]) + UsesOf(gs[n]))
    ensures !PortsDiffer(uses + ScreenUses(gs))
  {
    var rest := GpuSplit(uses, gs, n);
    ClashStays(uses + ScreenUses(gs[..n]) + UsesOf(gs[n]), rest, uses + ScreenUses(gs));
  }

  /** Validate the GPUs of a screen. */
  method ValidateGpus(ds: seq<Display>, ext: seq<OptVal>, fb: FbNode, gpus0: seq<GpuInfo>, ghost uses: seq<Use>)
    returns (ok: bool, gpus: seq<GpuInfo>, out: seq<FbGpu>, hasScanout: bool)
    requires Agrees(gpus0, uses)
    ensures SameGpus(gpus0, gpus)
    ensures ok <==> GpusOk(ds, ext, gpus0, fb, |fb.gpus|) && PortsDiffer(uses + ScreenUses(GpusOf(ds, fb.gpus)))
    ensures ok ==> out == GpusOf(ds, fb.gpus) && Through(ds, ext, fb, gpus0, uses, |fb.gpus|, gpus, out)
    ensures ok ==> (hasScanout <==> exists g <- out :: g.scanouts != [])
  {
    gpus, out, hasScanout := gpus0, [], false;
    assert uses + ScreenUses([]) == uses;
    ghost var all := GpusOf(ds, fb.gpus);
    for k := 0 to |fb.gpus|
      invariant Through(ds, ext, fb, gpus0, uses, k, gpus, out)
      invariant hasScanout <==> exists g <- out :: g.scanouts != []
    {
      assert all[..k] == out && all[k] == GpuOf(ds, fb.gpus[k]);
      GpuOkBySize(ds, ext, gpus0, gpus, fb, k, fb.gpus[k]);
      if !PortsDiffer(uses + ScreenUses(out) + UsesOf(GpuOf(ds, fb.gpus[k]))) { LaterGpuClash(uses, all, k); }
      var done, gpus', g := ValidateGpu(ds, ext, fb, k, fb.gpus[k], gpus, uses + ScreenUses(out));
      if !done {
        SameGpusTrans(gpus0, gpus, gpus');
        return false, gpus', out, hasScanout;
      }
      ThroughNext(ds, ext, fb, gpus0, uses, k, gpus, out, gpus');
      assert forall h :: h in out + [g] <==> h in out || h == g;
      if |g.scanouts| > 0 { hasScanout := true; }
      gpus, out := gpus', out + [g];
    }
    assert fb.gpus[..|fb.gpus|] == fb.gpus;
    ok := true;
  }

  /** Validate a screen. */
  method ValidateFb(ds: seq<Display>, ext: seq<OptVal>, fb: FbNode, gpus0: seq<GpuInfo>, bridges0: seq<Bridge>, ghost uses: seq<Use>)
    returns (ok: bool, gpus: seq<GpuInfo>, bridges: seq<Bridge>, out: Framebuffer)
    requires Agrees(gpus0, uses)
    ensures SameGpus(gpus0, gpus) && SameBridges(bridges, bridges0)
    ensures ok <==> FbOk(ds, ext, bridges0, gpus0, fb) && PortsDiffer(uses + ScreenUses(GpusOf(ds, fb.gpus)))
    ensures ok ==> out == FbOf(ds, bridges0, fb) && Agrees(gpus, uses + ScreenUses(out.gpus)) && Counted(gpus, gpus0, Indices(fb.gpus))
  {
    bridges, out := bridges0, Framebuffer(fb.index, fb.width, fb.height, fb.stereo, fb.rotated, [], None);
    var gs, hasScanout;
    ok, gpus, gs, hasScanout := ValidateGpus(ds, ext, fb, gpus0, uses);
    if !ok { return; }
    assert fb.gpus[..|fb.gpus|] == fb.gpus;
    AcceptedGpus(ds, ext, gpus0, fb);
    ScanoutsPresent(gs);
    SizeOkBySize(gpus0, gpus, fb, gs);
    var width, height;
    ok, width, height := CheckSize(gpus, fb, gs, hasScanout);
    if !ok { return; }
    var used;
    ok, bridges, used := CheckCombiner(bridges0, fb, gs);
    if !ok { return; }
    out := Framebuffer(fb.index, width, height, fb.stereo, fb.rotated, gs, used);
  }

  lemma AcceptedGpus(ds: seq<Display>, ext: seq<OptVal>, gpus: seq<GpuInfo>, fb: FbNode)
    requires GpusOk(ds, ext, gpus, fb, |fb.gpus|)
    ensures forall g <- GpusOf(ds, fb.gpus) :: g.index < |gpus| && |g.scanouts| <= 2
  {
    var gs := GpusOf(ds, fb.gpus);
    forall g <- gs
      ensures g.index < |gpus| && |g.scanouts| <= 2
    {
      var k :| 0 <= k < |gs| && gs[k] == g;
      assert GpuOk(ds, ext, gpus, fb, k, fb.gpus[k]);
    }
  }

  // ------------------------------------------------------- configurations

  function AllUses(fbs: seq<Framebuffer>): seq<Use> {
    if fbs == [] then [] else AllUses(fbs[..|fbs| - 1]) + ScreenUses(fbs[|fbs| - 1].gpus)
  }

  function Fbs(ds: seq<Display>, bridges: seq<Bridge>, nodes: seq<FbNode>): seq<Framebuffer> {
    seq(|nodes|, i requires 0 <= i < |nodes| => FbOf(ds, bridges, nodes[i]))
  }

  /** The rules: there is a screen, each screen is in order, and no port is used twice
      on all of them. */
  ghost predicate Accepts(ds: seq<Display>, ext: seq<OptVal>, bridges: seq<Bridge>, gpus: seq<GpuInfo>, nodes: seq<FbNode>) {
    && nodes != [] && (forall fb <- nodes :: FbOk(ds, ext, bridges, gpus, fb))
    && PortsDiffer(AllUses(Fbs(ds, bridges, nodes)))
  }

  function AllIndices(nodes: seq<FbNode>): seq<u32> {
    if nodes == [] then [] else AllIndices(nodes[..|nodes| - 1]) + Indices(nodes[|nodes| - 1].gpus)
  }

  predicate UsesStereo(nodes: seq<FbNode>) { exists fb <- nodes :: fb.stereo != NoStereo && fb.gpus != [] }

  lemma AllUsesNext(fbs: seq<Framebuffer>, fb: Framebuffer)
    ensures AllUses(fbs + [fb]) == AllUses(fbs) + ScreenUses(fb.gpus)
  {
    assert (fbs + [fb])[..|fbs|] == fbs;
  }

  lemma NodesNext(ds: seq<Display>, bridges: seq<Bridge>, nodes: seq<FbNode>, n: nat)
    requires n < |nodes|
    ensures Fbs(ds, bridges, nodes[..n + 1]) == Fbs(ds, bridges, nodes[..n]) + [FbOf(ds, bridges, nodes[n])]
    ensures AllIndices(nodes[..n + 1]) == AllIndices(nodes[..n]) + Indices(nodes[n].gpus)
  {
    assert nodes[..n + 1][..n] == nodes[..n];
  }

  /** State after n screens. */
  ghost predicate Walked(ds: seq<Display>, ext: seq<OptVal>, nodes: seq<FbNode>, gpus0: seq<GpuInfo>, bridges0: seq<Bridge>, n: nat,
                         gpus: seq<GpuInfo>, bridges: seq<Bridge>, out: seq<Framebuffer>)
    requires n <= |nodes|
  {
    && out == Fbs(ds, bridges0, nodes[..n]) && (forall i | 0 <= i < n :: FbOk(ds, ext, bridges0, gpus0, nodes[i]))
    && SameGpus(gpus0, gpus) && SameBridges(bridges, bridges0)
    && Agrees(gpus, AllUses(out)) && Counted(gpus, gpus0, AllIndices(nodes[..n]))
  }

  lemma WalkedNext(ds: seq<Display>, ext: seq<OptVal>, nodes: seq<FbNode>, gpus0: seq<GpuInfo>, bridges0: seq<Bridge>, n: nat,
                   gpus: seq<GpuInfo>, bridges: seq<Bridge>, out: seq<Framebuffer>, gpus': seq<GpuInfo>, bridges': seq<Bridge>)
    requires n < |nodes| && Walked(ds, ext, nodes, gpus0, bridges0, n, gpus, bridges, out)
    requires SameGpus(gpus, gpus') && SameBridges(bridges', bridges) && FbOk(ds, ext, bridges, gpus, nodes[n])
    requires var fb := FbOf(ds, bridges, nodes[n]); Agrees(gpus', AllUses(out) + ScreenUses(fb.gpus))
    requires Counted(gpus', gpus, Indices(nodes[n].gpus))
    ensures Walked(ds, ext, nodes, gpus0, bridges0, n + 1, gpus', bridges', out + [FbOf(ds, bridges, nodes[n])])
  {
    FbOkByHardware(ds, ext, gpus0, gpus, bridges0, bridges, nodes[n]);
    SameGpusTrans(gpus0, gpus, gpus');
    AllUsesNext(out, FbOf(ds, bridges, nodes[n]));
    NodesNext(ds, bridges0, nodes, n);
    CountedOn(gpus0, gpus, gpus', AllIndices(nodes[..n]), Indices(nodes[n].gpus));
  }

  lemma {:induction false} AllUsesPrefix(fbs: seq<Framebuffer>, n: nat) returns (rest: seq<Use>)
    requires n <= |fbs|
    ensures AllUses(fbs) == AllUses(fbs[..n]) + rest
    decreases |fbs| - n
  {
    if n == |fbs| {
      rest := [];
      assert fbs[..n] == fbs;
    } else {
      var later := AllUsesPrefix(fbs, n + 1);
      assert fbs[..n + 1][..n] == fbs[..n];
      rest := ScreenUses(fbs[n].gpus) + later;
    }
  }

  lemma ScreenSplit(fbs: seq<Framebuffer>, n: nat) returns (rest: seq<Use>)
    requires n < |fbs|
    ensures AllUses(fbs) == (AllUses(fbs[..n]) + ScreenUses(fbs[n].gpus)) + rest
  {
    rest := AllUsesPrefix(fbs, n + 1);
    assert fbs[..n + 1][..n] == fbs[..n];
  }

  lemma LaterScreenClash(fbs: seq<Framebuffer>, n: nat)
    requires n < |fbs| && !PortsDiffer(AllUses(fbs[..n]) + ScreenUses(fbs[n].gpus))
    ensures !PortsDiffer(AllUses(fbs))
  {
    var rest := ScreenSplit(fbs, n);
    ClashStays(AllUses(fbs[..n]) + ScreenUses(fbs[n].gpus), rest, AllUses(fbs));
  }

  /** A screen that is refused makes the whole configuration refused. */
  lemma ScreenDecides(ds: seq<Display>, ext: seq<OptVal>, nodes: seq<FbNode>, gpus0: seq<GpuInfo>, bridges0: seq<Bridge>, n: nat,
                      gpus: seq<GpuInfo>, bridges: seq<Bridge>, out: seq<Framebuffer>)
    requires n < |nodes| && Walked(ds, ext, nodes, gpus0, bridges0, n, gpus, bridges, out)
    ensures !FbOk(ds, ext, bridges, gpus, nodes[n]) ==> !(forall fb <- nodes :: FbOk(ds, ext, bridges0, gpus0, fb))
    ensures !PortsDiffer(AllUses(out) + ScreenUses(GpusOf(ds, nodes[n].gpus))) ==> !PortsDiffer(AllUses(Fbs(ds, bridges0, nodes)))
  {
    FbOkByHardware(ds, ext, gpus0, gpus, bridges0, bridges, nodes[n]);
    assert nodes[n] in nodes;
    var all := Fbs(ds, bridges0, nodes);
    assert all[..n] == out && all[n].gpus == GpusOf(ds, nodes[n].gpus);
    if !PortsDiffer(AllUses(out) + ScreenUses(GpusOf(ds, nodes[n].gpus))) { LaterScreenClash(all, n); }
  }

  lemma StereoNext(nodes: seq<FbNode>, i: nat)
    requires i < |nodes|
    ensures UsesStereo(nodes[..i + 1]) == (UsesStereo(nodes[..i]) || (nodes[i].stereo != NoStereo && nodes[i].gpus != []))
  {
    assert nodes[..i + 1] == nodes[..i] + [nodes[i]];
    assert nodes[i] in nodes[..i + 1];
  }

  /** Walk over the screens. */
  method ValidateAll(ds: seq<Display>, ext: seq<OptVal>, nodes: seq<FbNode>, gpus0: seq<GpuInfo>, bridges0: seq<Bridge>)
    returns (ok: bool, gpus: seq<GpuInfo>, bridges: seq<Bridge>, out: seq<Framebuffer>, usesStereo: bool)
    requires Agrees(gpus0, [])
    ensures SameGpus(gpus0, gpus) && SameBridges(bridges, bridges0)
    ensures ok <==> (forall fb <- nodes :: FbOk(ds, ext, bridges0, gpus0, fb)) && PortsDiffer(AllUses(Fbs(ds, bridges0, nodes)))
    ensures ok ==> Walked(ds, ext, nodes, gpus0, bridges0, |nodes|, gpus, bridges, out) && out == Fbs(ds, bridges0, nodes)
    ensures ok ==> usesStereo == UsesStereo(nodes)
  {
    gpus, bridges, out, usesStereo := gpus0, bridges0, [], false;
    ghost var all := Fbs(ds, bridges0, nodes);
    for i := 0 to |nodes|
      invariant Walked(ds, ext, nodes, gpus0, bridges0, i, gpus, bridges, out)
      invariant usesStereo == UsesStereo(nodes[..i])
    {
      assert all[..i] == out;
      StereoNext(nodes, i);
      ScreenDecides(ds, ext, nodes, gpus0, bridges0, i, gpus, bridges, out);
      var done, gpus', bridges', fb := ValidateFb(ds, ext, nodes[i], gpus, bridges, AllUses(out));
      if !done {
        SameGpusTrans(gpus0, gpus, gpus');
        return false, gpus', bridges', out, usesStereo;
      }
      WalkedNext(ds, ext, nodes, gpus0, bridges0, i, gpus, bridges, out, gpus', bridges');
      gpus, bridges, out := gpus', bridges', out + [fb];
      if nodes[i].stereo != NoStereo && |nodes[i].gpus| > 0 { usesStereo := true; }
    }
    assert nodes[..|nodes|] == nodes;
    ok := true;
  }

  class Validator {
    const displays: seq<Display>
    var gpus: seq<GpuInfo>
    var bridges: seq<Bridge>
    var extensions: seq<OptVal>
    var framebuffers: seq<Framebuffer>

    constructor (displays: seq<Display>, gpus: seq<GpuInfo>, bridges: seq<Bridge>)
      ensures this.displays == displays && this.gpus == gpus && this.bridges == bridges && framebuffers == []
    {
      this.displays, this.gpus, this.bridges, extensions, framebuffers := displays, gpus, bridges, [], [];
    }

    /** Validate a configuration. It is accepted exactly if it meets the rules; then the
        port tables agree with the screens, and the composite extension is turned off
        if some screen needs that. */
    method ExtractXMLData(nodes: seq<FbNode>, ext: seq<OptVal>) returns (ok: bool)
      requires Agrees(gpus, [])
      modifies this
      ensures ok <==> Accepts(displays, ext, old(bridges), old(gpus), nodes)
      ensures SameGpus(old(gpus), gpus) && SameBridges(bridges, old(bridges))
      ensures ok ==> AllStored(displays, old(bridges), nodes, framebuffers)
      ensures ok ==> framebuffers == Fbs(displays, old(bridges), nodes) && Agrees(gpus, AllUses(framebuffers))
      ensures ok ==> Counted(gpus, old(gpus), AllIndices(nodes))
      ensures ok ==> MarkedOnce(gpus, AllUses(framebuffers))
      ensures ok ==> extensions == if UsesStereo(nodes) && !CompositeNamed(ext) then ext + [OptVal("Composite", "Disable")] else ext
      ensures UsesStereo(nodes) <==> exists i | 0 <= i < |nodes| :: nodes[i].stereo != NoStereo && |nodes[i].gpus| > 0
      ensures CompositeNamed(ext) <==> exists i | 0 <= i < |ext| :: ext[i].name == "Composite"
    {
      framebuffers, extensions := [], ext;
      assert forall i | 0 <= i < |nodes| :: nodes[i] in nodes;
      assert forall i | 0 <= i < |ext| :: ext[i] in ext;
      if |nodes| == 0 { return false; }
      var usesStereo;
      ok, gpus, bridges, framebuffers, usesStereo := ValidateAll(displays, ext, nodes, gpus, bridges);
      assert nodes[..|nodes|] == nodes;
      if ok {
        AgreementMarks(gpus, AllUses(framebuffers));
        FbsAreStored(displays, ext, old(bridges), old(gpus), nodes);
      }
      if ok && usesStereo {
        var named, on := FindComposite(ext);
        if !named { extensions := extensions + [OptVal("Composite", "Disable")]; }
      }
    }
  }
}
