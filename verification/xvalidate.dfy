/** The validator's rules, and its walk over a configuration, which accepts exactly the
    configurations that meet the rules. */
module XValidate {
  import opened Resources
  import opened XConfig

  // ------------------------------------------------------------- extensions

  function Lower(c: char): char { if 'A' <= c <= 'Z' then ((c as int) + 32) as char else c }

  predicate SameIgnoringCase(a: string, b: string) {
    |a| == |b| && forall i | 0 <= i < |a| :: Lower(a[i]) == Lower(b[i])
  }

  /** The composite extension is asked for. Its name is compared exactly. */
  predicate CompositeOn(ext: seq<OptVal>) { exists o <- ext :: o.name == "Composite" && SameIgnoringCase(o.value, "Enable") }

  predicate CompositeNamed(ext: seq<OptVal>) { exists o <- ext :: o.name == "Composite" }

  method FindComposite(ext: seq<OptVal>) returns (named: bool, on: bool)
    ensures named == CompositeNamed(ext) && on == CompositeOn(ext)
  {
    named, on := false, false;
    for i := 0 to |ext|
      invariant named == CompositeNamed(ext[..i]) && on == CompositeOn(ext[..i])
    {
      assert ext[..i + 1] == ext[..i] + [ext[i]];
      if ext[i].name == "Composite" {
        named := true;
        if SameIgnoringCase(ext[i].value, "Enable") { on := true; }
      }
    }
    assert ext[..|ext|] == ext;
  }

  // ----------------------------------------------------------------- stereo

  function ModeFor(ds: seq<Display>, s: Scanout): Mode {
    match ModeOf(ds, s.device, s.mode) case Some(m) => m case None => Mode("", 0, 0, "", "")
  }

  predicate NeedsTiming(stereo: Stereo) { stereo != NoStereo && stereo != Passive }

  /** Two outputs driven by the same modeline. */
  predicate SameTiming(a: Mode, b: Mode) { a.kind == "modeline" && b.kind == "modeline" && a.value == b.value }

  predicate SameView(ds: seq<Display>, a: Scanout, b: Scanout) {
    && a.width == b.width && a.height == b.height && a.x == b.x && a.y == b.y
    && ModeFor(ds, a).width == ModeFor(ds, b).width && ModeFor(ds, a).height == ModeFor(ds, b).height
  }

  /** Active stereo wants one modeline for all outputs; passive stereo wants two outputs
      that show the same. */
  predicate StereoOk(ds: seq<Display>, stereo: Stereo, scs: seq<Scanout>) {
    && (NeedsTiming(stereo) ==> forall i | 1 <= i < |scs| :: SameTiming(ModeFor(ds, scs[0]), ModeFor(ds, scs[i])))
    && (stereo == Passive ==> |scs| == 2 && SameView(ds, scs[0], scs[1]))
  }

  method CheckStereo(ds: seq<Display>, stereo: Stereo, scs: seq<Scanout>) returns (ok: bool)
    ensures ok == StereoOk(ds, stereo, scs)
  {
    if !(stereo == NoStereo || stereo == Passive) && |scs| > 1 {
      // The flag for outputs of one device and one type is never set, so that the
      // comparison of mode names meant for them is not reached.
      var dm1 := ModeFor(ds, scs[0]);
      for i := 1 to |scs|
        invariant forall j | 1 <= j < i :: SameTiming(dm1, ModeFor(ds, scs[j]))
      {
        var dm2 := ModeFor(ds, scs[i]);
        if dm1.kind != "modeline" || dm2.kind != "modeline" { return false; }
        if dm1.value != dm2.value { return false; }
      }
    }
    if stereo == Passive {
      if |scs| != 2 { return false; }
      if scs[0].width != scs[1].width || scs[0].height != scs[1].height { return false; }
      if scs[0].x != scs[1].x || scs[0].y != scs[1].y { return false; }
      var dm1, dm2 := ModeFor(ds, scs[0]), ModeFor(ds, scs[1]);
      if dm1.width != dm2.width || dm1.height != dm2.height { return false; }
    }
    ok := true;
  }

  // --------------------------------------------------------------- one GPU

  function GpuOf(ds: seq<Display>, g: GpuNode): FbGpu {
    FbGpu(g.index, seq(|g.scanouts|, i requires 0 <= i < |g.scanouts| => Resolved(ds, g.scanouts[i])))
  }

  function UsesOf(g: FbGpu): seq<Use> {
    seq(|g.scanouts|, i requires 0 <= i < |g.scanouts| => Use(g.index, g.scanouts[i]))
  }

  /** The rules for the k-th GPU of a screen, apart from repeated ports. */
  predicate GpuOk(ds: seq<Display>, ext: seq<OptVal>, gpus: seq<GpuInfo>, fb: FbNode, k: nat, g: GpuNode) {
    && g.index < |gpus|
    && (g.scanouts == [] ==> fb.stereo == NoStereo && (k == 0 ==> fb.width != UNSPECIFIED && fb.height != UNSPECIFIED))
    && (g.scanouts != [] ==> gpus[g.index].allowScanOut)
    && (forall i | 0 <= i < |g.scanouts| :: NodeOk(ds, fb, |gpus[g.index].portUsage|, g.scanouts[i]))
    && (fb.stereo != NoStereo ==> !CompositeOn(ext))
    && |g.scanouts| <= 2
    && StereoOk(ds, fb.stereo, GpuOf(ds, g).scanouts)
  }

  lemma PortsDifferPrefix(a: seq<Use>, b: seq<Use>)
    requires PortsDiffer(a + b)
    ensures PortsDiffer(a)
  {
    forall i, j | 0 <= i < j < |a| ensures !SamePort(a[i], a[j]) { assert !SamePort((a + b)[i], (a + b)[j]); }
  }

  lemma SameGpusTrans(a: seq<GpuInfo>, b: seq<GpuInfo>, c: seq<GpuInfo>)
    requires SameGpus(a, b) && SameGpus(b, c)
    ensures SameGpus(a, c)
  {
  }

  /** Read one scanout and enter it into the table of its GPU. */
  method EnterScanout(ds: seq<Display>, fb: FbNode, g: u32, s: ScanoutNode, gpus0: seq<GpuInfo>, ghost uses: seq<Use>)
    returns (ok: bool, gpus: seq<GpuInfo>, scanout: Scanout)
    requires Agrees(gpus0, uses) && g < |gpus0|
    ensures SameGpus(gpus0, gpus)
    ensures ok <==> s.port < |gpus0[g].portUsage| && ScanoutOk(ds, fb.width, fb.height, s) && PortsDiffer(uses + [Use(g, Resolved(ds, s))])
    ensures ok ==> scanout == Resolved(ds, s) && Agrees(gpus, uses + [Use(g, scanout)])
    ensures SameCounts(gpus, gpus0)
  {
    gpus, scanout := gpus0, Scanout(0, 0, 0, 0, s.port, "", "", s.device);
    ghost var u := Use(g, Resolved(ds, s));
    if s.port >= |gpus[g].portUsage| { return false, gpus, scanout; }
    assert HasPort(gpus, u);
    FreePortIsNew(gpus, uses, u);
    if gpus[g].portUsage[s.port] != 0 { return false, gpus, scanout; }
    ok, scanout := ReadScanout(ds, fb.width, fb.height, s);
    if !ok { return; }
    MarkAgrees(gpus, uses, u);
    gpus := gpus[g := gpus[g].(portUsage := gpus[g].portUsage[s.port := 1], portScanout := gpus[g].portScanout[s.port := scanout])];
  }

  lemma LaterPortClash(a: seq<Use>, b: seq<Use>, j: nat)
    requires j < |b| && !PortsDiffer(a + b[..j] + [b[j]])
    ensures !PortsDiffer(a + b)
  {
    if PortsDiffer(a + b) {
      assert a + b == (a + b[..j] + [b[j]]) + b[j + 1..];
      PortsDifferPrefix(a + b[..j] + [b[j]], b[j + 1..]);
    }
  }

  ghost predicate SameCounts(gpus: seq<GpuInfo>, other: seq<GpuInfo>) {
    |gpus| == |other| && forall i | 0 <= i < |gpus| :: gpus[i].usageCount == other[i].usageCount
  }

  predicate NodeOk(ds: seq<Display>, fb: FbNode, ports: nat, s: ScanoutNode) { s.port < ports && ScanoutOk(ds, fb.width, fb.height, s) }

  /** State after j scanouts of a GPU. */
  ghost predicate Entered(ds: seq<Display>, fb: FbNode, g: u32, nodes: seq<ScanoutNode>, gpus0: seq<GpuInfo>, uses: seq<Use>, all: seq<Use>,
                          j: nat, gpus: seq<GpuInfo>, scanouts: seq<Scanout>)
    requires g < |gpus0| && j <= |nodes| == |all|
  {
    && Agrees(gpus, uses + all[..j]) && SameGpus(gpus0, gpus) && SameCounts(gpus, gpus0)
    && |scanouts| == j && (forall i | 0 <= i < j :: scanouts[i] == Resolved(ds, nodes[i]))
    && (forall i | 0 <= i < j :: NodeOk(ds, fb, |gpus0[g].portUsage|, nodes[i]))
  }

  lemma EnteredNext(ds: seq<Display>, fb: FbNode, g: u32, nodes: seq<ScanoutNode>, gpus0: seq<GpuInfo>, uses: seq<Use>, all: seq<Use>,
                    j: nat, gpus: seq<GpuInfo>, scanouts: seq<Scanout>, gpus': seq<GpuInfo>)
    requires g < |gpus0| && j < |nodes| == |all| && Entered(ds, fb, g, nodes, gpus0, uses, all, j, gpus, scanouts)
    requires SameGpus(gpus, gpus') && SameCounts(gpus', gpus) && NodeOk(ds, fb, |gpus0[g].portUsage|, nodes[j])
    requires Agrees(gpus', uses + all[..j] + [all[j]])
    ensures Entered(ds, fb, g, nodes, gpus0, uses, all, j + 1, gpus', scanouts + [Resolved(ds, nodes[j])])
  {
    NextUses(uses, all, j);
    SameGpusTrans(gpus0, gpus, gpus');
  }

  /** Read all scanouts of a GPU; all has the uses they lead to. */
  method EnterScanouts(ds: seq<Display>, fb: FbNode, g: u32, nodes: seq<ScanoutNode>, gpus0: seq<GpuInfo>, ghost uses: seq<Use>, ghost all: seq<Use>)
    returns (ok: bool, gpus: seq<GpuInfo>, scanouts: seq<Scanout>)
    requires Agrees(gpus0, uses) && g < |gpus0|
    requires |all| == |nodes| && forall i | 0 <= i < |nodes| :: all[i] == Use(g, Resolved(ds, nodes[i]))
    ensures SameGpus(gpus0, gpus)
    ensures ok <==> (forall i | 0 <= i < |nodes| :: NodeOk(ds, fb, |gpus0[g].portUsage|, nodes[i])) && PortsDiffer(uses + all)
    ensures ok ==> Entered(ds, fb, g, nodes, gpus0, uses, all, |nodes|, gpus, scanouts) && Agrees(gpus, uses + all)
  {
    gpus, scanouts := gpus0, [];
    assert uses + all[..0] == uses;
    for j := 0 to |nodes|
      invariant Entered(ds, fb, g, nodes, gpus0, uses, all, j, gpus, scanouts)
    {
      if !PortsDiffer(uses + all[..j] + [all[j]]) { LaterPortClash(uses, all, j); }
      var entered, gpus', scanout := EnterScanout(ds, fb, g, nodes[j], gpus, uses + all[..j]);
      if !entered {
        SameGpusTrans(gpus0, gpus, gpus');
        return false, gpus', scanouts;
      }
      EnteredNext(ds, fb, g, nodes, gpus0, uses, all, j, gpus, scanouts, gpus');
      gpus, scanouts := gpus', scanouts + [scanout];
    }
    assert uses + all[..|all|] == uses + all;
    ok := true;
  }

  lemma NextUses(uses: seq<Use>, all: seq<Use>, j: nat)
    requires j < |all|
    ensures uses + all[..j + 1] == uses + all[..j] + [all[j]]
  {
  }

  /** How often a GPU has been put on a screen. */
  ghost predicate Counted(gpus: seq<GpuInfo>, before: seq<GpuInfo>, indices: seq<u32>)
    requires |gpus| == |before|
  {
    forall i: u32 | i < |gpus| :: gpus[i].usageCount == before[i].usageCount + multiset(indices)[i]
  }

  lemma UsageCountKeeps(gpus: seq<GpuInfo>, g: nat, n: nat, uses: seq<Use>)
    requires g < |gpus| && Agrees(gpus, uses)
    ensures Agrees(gpus[g := gpus[g].(usageCount := n)], uses) && SameGpus(gpus, gpus[g := gpus[g].(usageCount := n)])
  {
    var gpus' := gpus[g := gpus[g].(usageCount := n)];
    forall u <- uses
      ensures HasPort(gpus', u) && gpus'[u.gpu].portUsage[u.scanout.port] == 1 && gpus'[u.gpu].portScanout[u.scanout.port] == u.scanout
    {
      assert HasPort(gpus, u);
    }
    forall i, p | 0 <= i < |gpus'| && 0 <= p < |gpus'[i].portUsage| && gpus'[i].portUsage[p] != 0
      ensures exists u <- uses :: u.gpu == i && u.scanout.port == p
    {
      assert gpus[i].portUsage[p] != 0;
    }
  }

  /** Validate the k-th GPU of a screen. */
  method ValidateGpu(ds: seq<Display>, ext: seq<OptVal>, fb: FbNode, k: nat, g: GpuNode, gpus0: seq<GpuInfo>, ghost uses: seq<Use>)
    returns (ok: bool, gpus: seq<GpuInfo>, out: FbGpu)
    requires Agrees(gpus0, uses)
    ensures SameGpus(gpus0, gpus)
    ensures ok <==> GpuOk(ds, ext, gpus0, fb, k, g) && PortsDiffer(uses + UsesOf(GpuOf(ds, g)))
    ensures ok ==> out == GpuOf(ds, g) && Agrees(gpus, uses + UsesOf(out)) && Counted(gpus, gpus0, [g.index])
  {
    gpus, out := gpus0, FbGpu(g.index, []);
    if g.index >= |gpus| { return false, gpus, out; }
    UsageCountKeeps(gpus, g.index, gpus[g.index].usageCount + 1, uses);
    gpus := gpus[g.index := gpus[g.index].(usageCount := gpus[g.index].usageCount + 1)];
    ghost var counted := gpus;
    if |g.scanouts| == 0 {
      if fb.stereo != NoStereo { return false, gpus, out; }
      if (fb.width == UNSPECIFIED || fb.height == UNSPECIFIED) && k == 0 { return false, gpus, out; }
    } else {
      if !gpus[g.index].allowScanOut { return false, gpus, out; }
    }
    var scanouts;
    ok, gpus, scanouts := EnterScanouts(ds, fb, g.index, g.scanouts, gpus, uses, UsesOf(GpuOf(ds, g)));
    SameGpusTrans(gpus0, counted, gpus);
    if !ok { return; }
    assert scanouts == GpuOf(ds, g).scanouts;
    ok := CheckGpuRules(ds, ext, fb, scanouts);
    if !ok { return; }
    out := FbGpu(g.index, scanouts);
  }

  /** The rules for the outputs of one GPU taken together. */
  method CheckGpuRules(ds: seq<Display>, ext: seq<OptVal>, fb: FbNode, scanouts: seq<Scanout>) returns (ok: bool)
    ensures ok == ((fb.stereo != NoStereo ==> !CompositeOn(ext)) && |scanouts| <= 2 && StereoOk(ds, fb.stereo, scanouts))
  {
    if fb.stereo != NoStereo {
      var named, on := FindComposite(ext);
      if on { return false; }
    }
    if |scanouts| > 2 { return false; }
    ok := CheckStereo(ds, fb.stereo, scanouts);
  }

  // ---------------------------------------------------------- the size

  function AllScanouts(gs: seq<FbGpu>): seq<Scanout> {
    if gs == [] then [] else AllScanouts(gs[..|gs| - 1]) + gs[|gs| - 1].scanouts
  }

  function Right(s: Scanout): u32 { Add(s.x, s.width) }
  function Bottom(s: Scanout): u32 { Add(s.y, s.height) }

  /** The far corner of the box around scanouts, with 32-bit sums. */
  function MaxRight(ss: seq<Scanout>): u32 {
    if ss == [] then 0
    else
      var m, r := MaxRight(ss[..|ss| - 1]), Right(ss[|ss| - 1]);
      if r > m then r else m
  }

  function MaxBottom(ss: seq<Scanout>): u32 {
    if ss == [] then 0
    else
      var m, b := MaxBottom(ss[..|ss| - 1]), Bottom(ss[|ss| - 1]);
      if b > m then b else m
  }

  lemma {:induction false} MaxIsMax(ss: seq<Scanout>)
    ensures forall s <- ss :: Right(s) <= MaxRight(ss) && Bottom(s) <= MaxBottom(ss)
    ensures ss != [] ==> (exists s <- ss :: Right(s) == MaxRight(ss)) && (exists s <- ss :: Bottom(s) == MaxBottom(ss))
  {
    if ss != [] {
      var before, last := ss[..|ss| - 1], ss[|ss| - 1];
      MaxIsMax(before);
      assert ss == before + [last];
      assert last in ss && forall s <- before :: s in ss;
    }
  }

  lemma MaxNext(ss: seq<Scanout>, s: Scanout)
    ensures MaxRight(ss + [s]) == if Right(s) > MaxRight(ss) then Right(s) else MaxRight(ss)
    ensures MaxBottom(ss + [s]) == if Bottom(s) > MaxBottom(ss) then Bottom(s) else MaxBottom(ss)
  {
    assert (ss + [s])[..|ss|] == ss;
  }

  /** Stretch the box by the scanouts of one GPU. */
  method StretchBox(ss: seq<Scanout>, ghost before: seq<Scanout>, maxX0: u32, maxY0: u32) returns (maxX: u32, maxY: u32)
    requires maxX0 == MaxRight(before) && maxY0 == MaxBottom(before)
    ensures maxX == MaxRight(before + ss) && maxY == MaxBottom(before + ss)
  {
    maxX, maxY := maxX0, maxY0;
    ghost var seen := before;
    for i := 0 to |ss|
      invariant seen == before + ss[..i] && maxX == MaxRight(seen) && maxY == MaxBottom(seen)
    {
      var finalX, finalY := Add(ss[i].x, ss[i].width), Add(ss[i].y, ss[i].height);
      MaxNext(seen, ss[i]);
      if finalX > maxX { maxX := finalX; }
      if finalY > maxY { maxY := finalY; }
      seen := seen + [ss[i]];
    }
    assert ss[..|ss|] == ss;
  }

  method BoundingBox(gs: seq<FbGpu>) returns (maxX: u32, maxY: u32)
    ensures maxX == MaxRight(AllScanouts(gs)) && maxY == MaxBottom(AllScanouts(gs))
  {
    maxX, maxY := 0, 0;
    for j := 0 to |gs|
      invariant maxX == MaxRight(AllScanouts(gs[..j])) && maxY == MaxBottom(AllScanouts(gs[..j]))
    {
      assert gs[..j + 1][..j] == gs[..j];
      maxX, maxY := StretchBox(gs[j].scanouts, AllScanouts(gs[..j]), maxX, maxY);
    }
    assert gs[..|gs|] == gs;
  }

  function FinalWidth(fb: FbNode, gs: seq<FbGpu>): u32 {
    if fb.width == UNSPECIFIED && AllScanouts(gs) != [] then MaxRight(AllScanouts(gs)) else fb.width
  }

  function FinalHeight(fb: FbNode, gs: seq<FbGpu>): u32 {
    if fb.height == UNSPECIFIED && AllScanouts(gs) != [] then MaxBottom(AllScanouts(gs)) else fb.height
  }

  /** The framebuffer is large enough for its scanouts, not too large for its GPUs, and
      not too small. */
  predicate SizeOk(gpus: seq<GpuInfo>, fb: FbNode, gs: seq<FbGpu>)
    requires forall g <- gs :: g.index < |gpus|
  {
    && (AllScanouts(gs) != [] ==> MaxRight(AllScanouts(gs)) <= FinalWidth(fb, gs) && MaxBottom(AllScanouts(gs)) <= FinalHeight(fb, gs))
    && (forall g <- gs :: FinalWidth(fb, gs) <= gpus[g.index].maxWidth && FinalHeight(fb, gs) <= gpus[g.index].maxHeight)
    && FinalWidth(fb, gs) >= 304 && FinalHeight(fb, gs) >= 200
  }

  lemma {:induction false} ScanoutsPresent(gs: seq<FbGpu>)
    ensures AllScanouts(gs) != [] <==> exists g <- gs :: g.scanouts != []
  {
    if gs != [] {
      var n := |gs| - 1;
      ScanoutsPresent(gs[..n]);
      assert gs == gs[..n] + [gs[n]];
      assert gs[n] in gs && forall g <- gs[..n] :: g in gs;
    }
  }

  method CheckSize(gpus: seq<GpuInfo>, fb: FbNode, gs: seq<FbGpu>, hasScanout: bool) returns (ok: bool, width: u32, height: u32)
    requires forall g <- gs :: g.index < |gpus|
    requires hasScanout <==> AllScanouts(gs) != []
    ensures ok == SizeOk(gpus, fb, gs) && width == FinalWidth(fb, gs) && (ok ==> height == FinalHeight(fb, gs))
  {
    width, height := fb.width, fb.height;
    if hasScanout {
      var maxX, maxY := BoundingBox(gs);
      if width == UNSPECIFIED { width := maxX; } else { if maxX > width { return false, width, height; } }
      if height == UNSPECIFIED { height := maxY; } else { if maxY > height { return false, width, height; } }
    }
    for j := 0 to |gs|
      invariant forall i | 0 <= i < j :: width <= gpus[gs[i].index].maxWidth && height <= gpus[gs[i].index].maxHeight
    {
      assert gs[j] in gs;
      if width > gpus[gs[j].index].maxWidth { return false, width, height; }
      if height > gpus[gs[j].index].maxHeight { return false, width, height; }
    }
    if width < 304 || height < 200 { return false, width, height; }
    ok := true;
  }

  // -------------------------------------------------------------- combiners

  /** All outputs show one mode of one device, over one kind of connection. */
  predicate Alike(ss: seq<Scanout>) {
    forall s <- ss :: s.device == ss[0].device && s.kind == ss[0].kind && s.mode == ss[0].mode
  }

  /** Mosaic wants outputs on both GPUs, on the second no more than on the first and on
      the same ports, all alike. Other modes want one output, on the first GPU. */
  predicate SliOutputsOk(mode: SliMode, gs: seq<FbGpu>)
    requires |gs| >= 2
  {
    var a, b := gs[0].scanouts, gs[1].scanouts;
    if mode == Mosaic then
      && 1 <= |b| <= |a| && (forall i | 0 <= i < |b| :: a[i].port == b[i].port)
      && Alike(AllScanouts(gs))
    else
      |a| == 1 && |b| == 0
  }

  predicate CombinerOk(bridges: seq<Bridge>, fb: FbNode, gs: seq<FbGpu>) {
    match fb.combiner
    case NoCombiner => |gs| <= 1
    case Malformed => false
    case Sli(index, mode) =>
      && index < |bridges| && !fb.rotated && fb.stereo != Passive
      && (mode == Mosaic ==> bridges[index].quadroPlex)
      && |gs| >= 2 && gs[0].index == bridges[index].gpu0 && gs[1].index == bridges[index].gpu1
      && SliOutputsOk(mode, gs)
  }

  method CheckAlike(gs: seq<FbGpu>) returns (ok: bool)
    ensures ok == Alike(AllScanouts(gs))
  {
    var all: seq<Scanout> := [];
    for i := 0 to |gs|
      invariant all == AllScanouts(gs[..i])
    {
      assert gs[..i + 1][..i] == gs[..i];
      for j := 0 to |gs[i].scanouts|
        invariant all == AllScanouts(gs[..i]) + gs[i].scanouts[..j]
      {
        all := all + [gs[i].scanouts[j]];
      }
      assert gs[i].scanouts[..|gs[i].scanouts|] == gs[i].scanouts;
    }
    assert gs[..|gs|] == gs;
    var i := 1;
    while i < |all|
      invariant 1 <= i
      invariant forall j | 0 <= j < i && j < |all| :: all[j].device == all[0].device && all[j].kind == all[0].kind && all[j].mode == all[0].mode
    {
      assert all[i] in all;
      if all[i].device != all[0].device { return false; }
      if all[i].kind != all[0].kind { return false; }
      if all[i].mode != all[0].mode { return false; }
      i := i + 1;
    }
    ok := true;
  }

  method CheckSliOutputs(mode: SliMode, gs: seq<FbGpu>) returns (ok: bool)
    requires |gs| >= 2 && |gs[0].scanouts| <= 2 && |gs[1].scanouts| <= 2
    ensures ok == SliOutputsOk(mode, gs)
  {
    var a, b := gs[0].scanouts, gs[1].scanouts;
    if mode != Mosaic {
      if |b| > 0 { return false; }
      if |a| > 1 { return false; }
      if |a| == 0 { return false; }
      return true;
    }
    if |a| == 0 { return false; }
    if |b| == 0 { return false; }
    if |a| == 2 {
      if |b| == 2 {
        if a[1].port != b[1].port { return false; }
      }
      if |b| > 0 {
        if a[0].port != b[0].port { return false; }
      }
    } else if |a| == 1 {
      if |b| == 2 { return false; }
      else if |b| == 1 {
        if a[0].port != b[0].port { return false; }
      }
    }
    ok := CheckAlike(gs);
  }

  /** Check how GPUs are combined; an SLI bridge remembers the mode it is set to. */
  method CheckCombiner(bridges0: seq<Bridge>, fb: FbNode, gs: seq<FbGpu>) returns (ok: bool, bridges: seq<Bridge>, used: Option<Bridge>)
    requires forall g <- gs :: |g.scanouts| <= 2
    ensures ok == CombinerOk(bridges0, fb, gs)
    ensures |bridges| == |bridges0| && forall i | 0 <= i < |bridges| :: bridges[i] == bridges0[i].(mode := bridges[i].mode)
    ensures ok ==> used == UsedBridge(bridges0, fb)
  {
    bridges, used := bridges0, None;
    match fb.combiner {
      case NoCombiner =>
        ok := |gs| <= 1;
      case Malformed =>
        ok := false;
      case Sli(index, mode) =>
        if index >= |bridges| { return false, bridges, used; }
        if fb.rotated { return false, bridges, used; }
        if fb.stereo == Passive { return false, bridges, used; }
        if mode == Mosaic && !bridges[index].quadroPlex { return false, bridges, used; }
        bridges := bridges[index := bridges[index].(mode := mode)];
        if |gs| < 2 { return false, bridges, used; }
        if gs[0].index != bridges[index].gpu0 { return false, bridges, used; }
        if gs[1].index != bridges[index].gpu1 { return false, bridges, used; }
        assert gs[0] in gs && gs[1] in gs;
        ok := CheckSliOutputs(mode, gs);
        used := Some(bridges[index]);
    }
  }

  function UsedBridge(bridges: seq<Bridge>, fb: FbNode): Option<Bridge> {
    if fb.combiner.Sli? && fb.combiner.index < |bridges| then Some(bridges[fb.combiner.index].(mode := fb.combiner.mode)) else None
  }
}
