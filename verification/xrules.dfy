/** The rules of the validator spelled out over what is read and what is stored, and that a
    configuration is accepted exactly if it can be stored so that it obeys them. */
module XRules {
  import opened Resources
  import opened XConfig
  import opened XValidate
  import opened XStored
  import opened XScreens

  /** The mode an output is in. */
  ghost predicate InMode(ds: seq<Display>, o: Scanout, m: Mode) { exists i: nat, j: nat :: ModeAt(ds, o, m, i, j) }

  ghost predicate ModeAt(ds: seq<Display>, o: Scanout, m: Mode, i: nat, j: nat) {
    Named(ds, o.device, i) && Aliased(ds[i].modes, o.mode, j) && m == ds[i].modes[j]
  }

  /** The mode is no larger than the screen, where its size is given, nor than the area. */
  ghost predicate ModeFits(fb: FbNode, o: Scanout, m: Mode) {
    && (fb.width != UNSPECIFIED ==> m.width <= fb.width) && (fb.height != UNSPECIFIED ==> m.height <= fb.height)
    && m.width <= o.width && m.height <= o.height
  }

  ghost predicate OutputObeys(ds: seq<Display>, fb: FbNode, ports: nat, o: Scanout) {
    o.port < ports && exists m :: InMode(ds, o, m) && ModeFits(fb, o, m)
  }

  ghost predicate OneTiming(ds: seq<Display>, a: Scanout, b: Scanout) {
    exists m, n :: InMode(ds, a, m) && InMode(ds, b, n) && m.kind == "modeline" && n.kind == "modeline" && m.value == n.value
  }

  ghost predicate OneView(ds: seq<Display>, a: Scanout, b: Scanout) {
    && (a.x, a.y, a.width, a.height) == (b.x, b.y, b.width, b.height)
    && exists m, n :: InMode(ds, a, m) && InMode(ds, b, n) && (m.width, m.height) == (n.width, n.height)
  }

  /** The word enable, in capitals or not. */
  predicate SaysEnable(v: string) {
    |v| == 6 && v[0] in "eE" && v[1] in "nN" && v[2] in "aA" && v[3] in "bB" && v[4] in "lL" && v[5] in "eE"
  }

  lemma EnableMeans(v: string)
    ensures SameIgnoringCase(v, "Enable") <==> SaysEnable(v)
  {
    if |v| == 6 {
      LowerMeans(v[0], 'E', 'e');
      LowerMeans(v[1], 'N', 'n');
      LowerMeans(v[2], 'A', 'a');
      LowerMeans(v[3], 'B', 'b');
      LowerMeans(v[4], 'L', 'l');
      LowerMeans(v[5], 'E', 'e');
    }
  }

  lemma LowerMeans(c: char, upper: char, lower: char)
    requires 'A' <= upper <= 'Z' && lower as int == upper as int + 32
    ensures Lower(c) == Lower(upper) <==> c == upper || c == lower
    ensures Lower(c) == Lower(lower) <==> c == upper || c == lower
  {
  }

  /** A GPU of a screen: it exists; it has at most two outputs, on ports it has, in modes
      that fit, and none unless it may scan out; one without outputs is not in stereo, and
      is the first only if the size is given. Stereo wants the composite extension off;
      with shutters, two outputs of one timing; passive, two outputs of one view. */
  ghost predicate GpuObeys(ds: seq<Display>, ext: seq<OptVal>, gpus: seq<GpuInfo>, fb: FbNode, k: nat, o: FbGpu) {
    && o.index < |gpus| && |o.scanouts| <= 2
    && (forall j | 0 <= j < |o.scanouts| :: OutputObeys(ds, fb, |gpus[o.index].portUsage|, o.scanouts[j]))
    && (o.scanouts != [] ==> gpus[o.index].allowScanOut)
    && (o.scanouts == [] ==> fb.stereo == NoStereo && (k == 0 ==> fb.width != UNSPECIFIED && fb.height != UNSPECIFIED))
    && (fb.stereo != NoStereo ==> forall x <- ext :: x.name == "Composite" ==> !SaysEnable(x.value))
    && (fb.stereo in {Active, SeeReal, Sharp3D} && |o.scanouts| == 2 ==> OneTiming(ds, o.scanouts[0], o.scanouts[1]))
    && (fb.stereo == Passive ==> |o.scanouts| == 2 && OneView(ds, o.scanouts[0], o.scanouts[1]))
  }

  /** A screen holds its outputs, as far as sums of 32 bits tell, is within the limits of
      its GPUs, and is not too small. */
  ghost predicate SizeObeys(gpus: seq<GpuInfo>, o: Framebuffer)
    requires forall g <- o.gpus :: g.index < |gpus|
  {
    && (forall g <- o.gpus, s <- g.scanouts :: (s.x + s.width) % LIMIT <= o.width && (s.y + s.height) % LIMIT <= o.height)
    && (forall g <- o.gpus :: o.width <= gpus[g.index].maxWidth && o.height <= gpus[g.index].maxHeight)
    && 304 <= o.width && 200 <= o.height
  }

  /** Several GPUs need SLI on a bridge that joins them, on a screen that is not rotated or
      in passive stereo. In mosaic mode the bridge is that of a QuadroPlex, both have
      outputs, the second no more than the first and on the same ports, all alike; in
      other modes the first has one and the second none. */
  ghost predicate CombinerObeys(bridges: seq<Bridge>, fb: FbNode, gs: seq<FbGpu>) {
    match fb.combiner
    case NoCombiner => |gs| < 2
    case Malformed => false
    case Sli(index, mode) =>
      && index < |bridges| && !fb.rotated && fb.stereo != Passive
      && |gs| >= 2 && gs[0].index == bridges[index].gpu0 && gs[1].index == bridges[index].gpu1
      && (mode != Mosaic ==> |gs[0].scanouts| == 1 && |gs[1].scanouts| == 0)
      && (mode == Mosaic ==>
            && bridges[index].quadroPlex && 0 < |gs[1].scanouts| <= |gs[0].scanouts|
            && (forall i | 0 <= i < |gs[1].scanouts| :: gs[0].scanouts[i].port == gs[1].scanouts[i].port)
            && (forall g <- gs, h <- gs, s <- g.scanouts, t <- h.scanouts :: (s.device, s.kind, s.mode) == (t.device, t.kind, t.mode)))
  }

  ghost predicate FbObeys(ds: seq<Display>, ext: seq<OptVal>, bridges: seq<Bridge>, gpus: seq<GpuInfo>, fb: FbNode, o: Framebuffer) {
    && (forall k | 0 <= k < |o.gpus| :: GpuObeys(ds, ext, gpus, fb, k, o.gpus[k]))
    && (forall g <- o.gpus :: g.index < |gpus|) && SizeObeys(gpus, o)
    && CombinerObeys(bridges, fb, o.gpus)
  }

  // ------------------------------------------------------------- one output

  /** An output that is in a mode is in the one that is looked up. */
  lemma ModeIsOne(ds: seq<Display>, o: Scanout, m: Mode)
    ensures InMode(ds, o, m) <==> ModeOf(ds, o.device, o.mode) == Some(m)
  {
    var i := DisplayFound(ds, o.device);
    var d := FindDisplay(ds, o.device);
    if ModeOf(ds, o.device, o.mode) == Some(m) {
      var j := ModeFound(d.value.modes, o.mode);
      assert ModeAt(ds, o, m, i, j);
    }
    if InMode(ds, o, m) {
      var i2: nat, j2: nat :| ModeAt(ds, o, m, i2, j2);
      assert ds[i2] in ds && d.Some? && i2 == i;
      var j := ModeFound(d.value.modes, o.mode);
      assert ds[i].modes[j2] in d.value.modes && j2 == j;
    }
  }

  lemma ModeForIs(ds: seq<Display>, o: Scanout)
    requires ModeOf(ds, o.device, o.mode).Some?
    ensures InMode(ds, o, ModeFor(ds, o)) && forall m :: InMode(ds, o, m) ==> m == ModeFor(ds, o)
  {
    ModeIsOne(ds, o, ModeFor(ds, o));
    forall m | InMode(ds, o, m) ensures m == ModeFor(ds, o) { ModeIsOne(ds, o, m); }
  }

  lemma OutputRule(ds: seq<Display>, fb: FbNode, ports: nat, s: ScanoutNode, o: Scanout)
    requires StoredFor(ds, s, o)
    ensures NodeOk(ds, fb, ports, s) <==> OutputObeys(ds, fb, ports, o)
    ensures ModeOf(ds, o.device, o.mode).Some?
  {
    StoredExactly(ds, s, o);
    assert ModeOf(ds, o.device, o.mode) == ModeOf(ds, s.device, ModeName(ds, s));
    ModeForIs(ds, o);
  }

  lemma TimingRule(ds: seq<Display>, a: Scanout, b: Scanout)
    requires ModeOf(ds, a.device, a.mode).Some? && ModeOf(ds, b.device, b.mode).Some?
    ensures SameTiming(ModeFor(ds, a), ModeFor(ds, b)) <==> OneTiming(ds, a, b)
    ensures SameView(ds, a, b) <==> OneView(ds, a, b)
  {
    ModeForIs(ds, a);
    ModeForIs(ds, b);
  }

  // ---------------------------------------------------------------- one GPU

  lemma StereoRule(ds: seq<Display>, stereo: Stereo, ss: seq<Scanout>)
    requires |ss| <= 2 && forall j | 0 <= j < |ss| :: ModeOf(ds, ss[j].device, ss[j].mode).Some?
    ensures StereoOk(ds, stereo, ss) <==>
              && (stereo in {Active, SeeReal, Sharp3D} && |ss| == 2 ==> OneTiming(ds, ss[0], ss[1]))
              && (stereo == Passive ==> |ss| == 2 && OneView(ds, ss[0], ss[1]))
  {
    if |ss| == 2 { TimingRule(ds, ss[0], ss[1]); }
  }

  lemma GpuRule(ds: seq<Display>, ext: seq<OptVal>, gpus: seq<GpuInfo>, fb: FbNode, k: nat, g: GpuNode, o: FbGpu)
    requires GpuStored(ds, g, o)
    ensures GpuOk(ds, ext, gpus, fb, k, g) <==> GpuObeys(ds, ext, gpus, fb, k, o)
  {
    GpuIsStored(ds, g, o);
    forall x <- ext ensures SameIgnoringCase(x.value, "Enable") <==> SaysEnable(x.value) { EnableMeans(x.value); }
    if g.index < |gpus| {
      forall j | 0 <= j < |g.scanouts|
        ensures NodeOk(ds, fb, |gpus[g.index].portUsage|, g.scanouts[j]) <==> OutputObeys(ds, fb, |gpus[g.index].portUsage|, o.scanouts[j])
        ensures ModeOf(ds, o.scanouts[j].device, o.scanouts[j].mode).Some?
      {
        OutputRule(ds, fb, |gpus[g.index].portUsage|, g.scanouts[j], o.scanouts[j]);
      }
      if |o.scanouts| <= 2 { StereoRule(ds, fb.stereo, o.scanouts); }
    }
  }

  // ------------------------------------------------------------- one screen

  ghost predicate Holds(gs: seq<FbGpu>, width: u32, height: u32) {
    forall g <- gs, s <- g.scanouts :: (s.x + s.width) % LIMIT <= width && (s.y + s.height) % LIMIT <= height
  }

  lemma BoxRule(gs: seq<FbGpu>, width: u32, height: u32)
    ensures var all := AllScanouts(gs);
            (all != [] ==> MaxRight(all) <= width && MaxBottom(all) <= height) <==> Holds(gs, width, height)
  {
    var all := AllScanouts(gs);
    ScanoutsAre(gs);
    MaxIsMax(all);
    if all == [] || (MaxRight(all) <= width && MaxBottom(all) <= height) {
      forall g <- gs, s <- g.scanouts
        ensures (s.x + s.width) % LIMIT <= width && (s.y + s.height) % LIMIT <= height
      {
        assert s in all;
        assert Right(s) <= MaxRight(all) && Bottom(s) <= MaxBottom(all);
      }
    }
    if Holds(gs, width, height) && all != [] {
      var r :| r in all && Right(r) == MaxRight(all);
      var b :| b in all && Bottom(b) == MaxBottom(all);
      var gr :| gr in gs && r in gr.scanouts;
      var gb :| gb in gs && b in gb.scanouts;
      assert (r.x + r.width) % LIMIT <= width && (b.y + b.height) % LIMIT <= height;
    }
  }

  lemma SizeRule(gpus: seq<GpuInfo>, fb: FbNode, o: Framebuffer)
    requires (forall g <- o.gpus :: g.index < |gpus|) && SizeStored(fb, o)
    ensures SizeOk(gpus, fb, o.gpus) <==> SizeObeys(gpus, o)
  {
    StoredSize(fb, o);
    BoxRule(o.gpus, o.width, o.height);
    assert Holds(o.gpus, o.width, o.height) <==>
      forall g <- o.gpus, s <- g.scanouts :: (s.x + s.width) % LIMIT <= o.width && (s.y + s.height) % LIMIT <= o.height;
  }

  ghost predicate AllOneMode(gs: seq<FbGpu>) {
    forall g <- gs, h <- gs, s <- g.scanouts, t <- h.scanouts :: (s.device, s.kind, s.mode) == (t.device, t.kind, t.mode)
  }

  lemma AlikeMeans(gs: seq<FbGpu>)
    ensures Alike(AllScanouts(gs)) <==> AllOneMode(gs)
  {
    var all := AllScanouts(gs);
    ScanoutsAre(gs);
    if Alike(all) {
      forall g <- gs, h <- gs, s <- g.scanouts, t <- h.scanouts
        ensures (s.device, s.kind, s.mode) == (t.device, t.kind, t.mode)
      {
        assert s in all && t in all;
      }
    }
    if AllOneMode(gs) {
      forall s <- all
        ensures s.device == all[0].device && s.kind == all[0].kind && s.mode == all[0].mode
      {
        assert all[0] in all;
        var g :| g in gs && s in g.scanouts;
        var h :| h in gs && all[0] in h.scanouts;
      }
    }
  }

  lemma CombinerRule(bridges: seq<Bridge>, fb: FbNode, gs: seq<FbGpu>)
    ensures CombinerOk(bridges, fb, gs) <==> CombinerObeys(bridges, fb, gs)
  {
    AlikeMeans(gs);
  }

  lemma GpuRules(ds: seq<Display>, ext: seq<OptVal>, bridges: seq<Bridge>, gpus: seq<GpuInfo>, fb: FbNode, o: Framebuffer)
    requires FbStored(ds, bridges, fb, o)
    ensures o.gpus == GpusOf(ds, fb.gpus)
    ensures (forall k | 0 <= k < |fb.gpus| :: GpuOk(ds, ext, gpus, fb, k, fb.gpus[k])) <==>
              forall k | 0 <= k < |o.gpus| :: GpuObeys(ds, ext, gpus, fb, k, o.gpus[k])
  {
    forall k | 0 <= k < |fb.gpus|
      ensures o.gpus[k] == GpuOf(ds, fb.gpus[k])
      ensures GpuOk(ds, ext, gpus, fb, k, fb.gpus[k]) <==> GpuObeys(ds, ext, gpus, fb, k, o.gpus[k])
    {
      assert GpuStored(ds, fb.gpus[k], o.gpus[k]);
      GpuIsStored(ds, fb.gpus[k], o.gpus[k]);
      GpuRule(ds, ext, gpus, fb, k, fb.gpus[k], o.gpus[k]);
    }
  }

  lemma FbRule(ds: seq<Display>, ext: seq<OptVal>, bridges: seq<Bridge>, gpus: seq<GpuInfo>, fb: FbNode, o: Framebuffer)
    requires FbStored(ds, bridges, fb, o)
    ensures FbOk(ds, ext, bridges, gpus, fb) <==> FbObeys(ds, ext, bridges, gpus, fb, o)
  {
    var gs := GpusOf(ds, fb.gpus);
    GpuRules(ds, ext, bridges, gpus, fb, o);
    StoredSize(fb, o);
    CombinerRule(bridges, fb, gs);
    if forall g <- gs :: g.index < |gpus| { SizeRule(gpus, fb, o); }
  }

  // ------------------------------------------------------ a configuration

  /** Every screen obeys the rules, and no port is used twice. */
  ghost predicate Obeys(ds: seq<Display>, ext: seq<OptVal>, bridges: seq<Bridge>, gpus: seq<GpuInfo>, nodes: seq<FbNode>, out: seq<Framebuffer>) {
    && |nodes| > 0 && |out| == |nodes| && (forall i | 0 <= i < |nodes| :: FbObeys(ds, ext, bridges, gpus, nodes[i], out[i]))
    && PortsDiffer(AllUses(out))
  }

  /** Only one screen can be stored for a node. */
  lemma StoredIsFbOf(ds: seq<Display>, bridges: seq<Bridge>, fb: FbNode, o: Framebuffer)
    requires FbStored(ds, bridges, fb, o)
    ensures FbOf(ds, bridges, fb) == o
  {
    assert |o.gpus| == |fb.gpus|;
    forall k | 0 <= k < |fb.gpus|
      ensures o.gpus[k] == GpuOf(ds, fb.gpus[k])
    {
      assert GpuStored(ds, fb.gpus[k], o.gpus[k]);
      GpuIsStored(ds, fb.gpus[k], o.gpus[k]);
    }
    assert o.gpus == GpusOf(ds, fb.gpus);
    StoredSize(fb, o);
  }

  /** A configuration is accepted exactly if it can be stored, and what is stored obeys the
      rules. */
  lemma AcceptsExactly(ds: seq<Display>, ext: seq<OptVal>, bridges: seq<Bridge>, gpus: seq<GpuInfo>, nodes: seq<FbNode>)
    ensures Accepts(ds, ext, bridges, gpus, nodes) <==>
              exists out :: AllStored(ds, bridges, nodes, out) && Obeys(ds, ext, bridges, gpus, nodes, out)
  {
    var made := Fbs(ds, bridges, nodes);
    if Accepts(ds, ext, bridges, gpus, nodes) {
      FbsAreStored(ds, ext, bridges, gpus, nodes);
      forall i | 0 <= i < |nodes|
        ensures FbObeys(ds, ext, bridges, gpus, nodes[i], made[i])
      {
        assert nodes[i] in nodes;
        FbRule(ds, ext, bridges, gpus, nodes[i], made[i]);
      }
    }
    if out :| AllStored(ds, bridges, nodes, out) && Obeys(ds, ext, bridges, gpus, nodes, out) {
      forall i | 0 <= i < |nodes|
        ensures FbOk(ds, ext, bridges, gpus, nodes[i]) && out[i] == made[i]
      {
        FbRule(ds, ext, bridges, gpus, nodes[i], out[i]);
        StoredIsFbOf(ds, bridges, nodes[i], out[i]);
      }
      assert out == made;
      forall fb <- nodes ensures FbOk(ds, ext, bridges, gpus, fb) { var i :| 0 <= i < |nodes| && nodes[i] == fb; }
    }
  }

  // ------------------------------------------------- what is listed of all

  lemma {:induction false} ScreenUsesConcat(a: seq<FbGpu>, b: seq<FbGpu>)
    ensures ScreenUses(a + b) == ScreenUses(a) + ScreenUses(b)
  {
    if b == [] {
      assert a + b == a && ScreenUses(a) + [] == ScreenUses(a);
    } else {
      var n := |b| - 1;
      assert (a + b)[..|a + b| - 1] == a + b[..n] && (a + b)[|a + b| - 1] == b[n];
      ScreenUsesConcat(a, b[..n]);
      assert (ScreenUses(a) + ScreenUses(b[..n])) + UsesOf(b[n]) == ScreenUses(a) + (ScreenUses(b[..n]) + UsesOf(b[n]));
    }
  }

  lemma {:induction false} AllUsesConcat(a: seq<Framebuffer>, b: seq<Framebuffer>)
    ensures AllUses(a + b) == AllUses(a) + AllUses(b)
    decreases |b|
  {
    if b == [] {
      assert a + b == a && AllUses(a) + [] == AllUses(a);
    } else {
      var n := |b| - 1;
      assert (a + b)[..|a + b| - 1] == a + b[..n] && (a + b)[|a + b| - 1] == b[n];
      AllUsesConcat(a, b[..n]);
      assert (AllUses(a) + AllUses(b[..n])) + ScreenUses(b[n].gpus) == AllUses(a) + (AllUses(b[..n]) + ScreenUses(b[n].gpus));
    }
  }

  /** The uses of ports are listed screen by screen and GPU by GPU, one for each output. */
  lemma UsesListed(a: seq<Framebuffer>, b: seq<Framebuffer>, o: Framebuffer, g: FbGpu)
    ensures AllUses(a + b) == AllUses(a) + AllUses(b) && AllUses([o]) == ScreenUses(o.gpus)
    ensures |ScreenUses([g])| == |g.scanouts| && forall j | 0 <= j < |g.scanouts| :: ScreenUses([g])[j] == Use(g.index, g.scanouts[j])
  {
    AllUsesConcat(a, b);
    assert [o][..0] == [] && [g][..0] == [];
    assert AllUses([]) == [] && ScreenUses([]) == [];
  }

  /** So are the GPUs used, by which the usage counts go up. */
  lemma {:induction false} IndicesListed(a: seq<FbNode>, b: seq<FbNode>, fb: FbNode)
    ensures AllIndices(a + b) == AllIndices(a) + AllIndices(b)
    ensures |AllIndices([fb])| == |fb.gpus| && forall k | 0 <= k < |fb.gpus| :: AllIndices([fb])[k] == fb.gpus[k].index
    decreases |b|
  {
    assert [fb][..0] == [] && AllIndices([]) == [];
    if b == [] {
      assert a + b == a && AllIndices(a) + [] == AllIndices(a);
    } else {
      var n := |b| - 1;
      assert (a + b)[..|a + b| - 1] == a + b[..n] && (a + b)[|a + b| - 1] == b[n];
      IndicesListed(a, b[..n], fb);
      assert (AllIndices(a) + AllIndices(b[..n])) + Indices(b[n].gpus) == AllIndices(a) + (AllIndices(b[..n]) + Indices(b[n].gpus));
    }
  }
}
