/** What an accepted X server configuration is sure to have, where the rules fall short
    of it, and that the layouts of tiled displays pass the rules on geometry. */
module XSound {
  import opened Resources
  import opened XConfig
  import opened XValidate
  import opened XScreens
  import Layout

  // ------------------------------------------------------------- port table

  /** In the table an accepted configuration leaves behind a port is marked exactly if
      one scanout of the accepted screens uses it, no two do, and it holds that one. */
  lemma MarkedIffUsedOnce(ds: seq<Display>, ext: seq<OptVal>, bridges: seq<Bridge>, before: seq<GpuInfo>, nodes: seq<FbNode>,
                          after: seq<GpuInfo>)
    requires Accepts(ds, ext, bridges, before, nodes) && LeavesTable(ds, bridges, before, nodes, after)
    ensures MarkedOnce(after, AllUses(Fbs(ds, bridges, nodes)))
  {
    AgreementMarks(after, AllUses(Fbs(ds, bridges, nodes)));
  }

  /** What validation leaves behind of the GPUs, as ExtractXMLData ensures it. */
  ghost predicate LeavesTable(ds: seq<Display>, bridges: seq<Bridge>, before: seq<GpuInfo>, nodes: seq<FbNode>, after: seq<GpuInfo>) {
    SameGpus(before, after) && Agrees(after, AllUses(Fbs(ds, bridges, nodes)))
  }

  // ------------------------------------------------------------------- areas

  lemma {:induction false} ScanoutComesFrom(gs: seq<FbGpu>, s: Scanout)
    requires s in AllScanouts(gs)
    ensures exists g <- gs :: s in g.scanouts
  {
    var n := |gs| - 1;
    if s in gs[n].scanouts {
      assert gs[n] in gs;
    } else {
      ScanoutComesFrom(gs[..n], s);
      var g :| g in gs[..n] && s in g.scanouts;
      assert g in gs;
    }
  }

  lemma ResolvedFitsMode(ds: seq<Display>, fb: FbNode, ports: nat, node: ScanoutNode)
    requires NodeOk(ds, fb, ports, node)
    ensures var s := Resolved(ds, node); ModeFor(ds, s).width <= s.width && ModeFor(ds, s).height <= s.height
  {
  }

  /** In an accepted screen every mode fits the area it is shown in. */
  lemma ModesFitAreas(ds: seq<Display>, ext: seq<OptVal>, bridges: seq<Bridge>, gpus: seq<GpuInfo>, fb: FbNode, s: Scanout)
    requires FbOk(ds, ext, bridges, gpus, fb) && s in AllScanouts(FbOf(ds, bridges, fb).gpus)
    ensures ModeFor(ds, s).width <= s.width && ModeFor(ds, s).height <= s.height
  {
    var gs := GpusOf(ds, fb.gpus);
    ScanoutComesFrom(gs, s);
    var g :| g in gs && s in g.scanouts;
    var k :| 0 <= k < |gs| && gs[k] == g;
    var i :| 0 <= i < |g.scanouts| && g.scanouts[i] == s;
    assert GpuOk(ds, ext, gpus, fb, k, fb.gpus[k]);
    ResolvedFitsMode(ds, fb, |gpus[fb.gpus[k].index].portUsage|, fb.gpus[k].scanouts[i]);
  }

  lemma WrapDecides(x: u32, w: u32, size: u32)
    requires Add(x, w) <= size
    ensures x + w <= size <==> x + w < LIMIT
  {
  }

  lemma BoxIsInside(gpus: seq<GpuInfo>, fb: FbNode, gs: seq<FbGpu>, s: Scanout)
    requires InRange(gpus, gs) && SizeOk(gpus, fb, gs) && s in AllScanouts(gs)
    ensures Right(s) <= FinalWidth(fb, gs) && Bottom(s) <= FinalHeight(fb, gs)
  {
    MaxIsMax(AllScanouts(gs));
  }

  /** In an accepted screen an area lies inside the framebuffer exactly if the sums of
      its coordinates do not wrap around. */
  lemma AreasInsideExactly(ds: seq<Display>, ext: seq<OptVal>, bridges: seq<Bridge>, gpus: seq<GpuInfo>, fb: FbNode, s: Scanout)
    requires FbOk(ds, ext, bridges, gpus, fb) && s in AllScanouts(FbOf(ds, bridges, fb).gpus)
    ensures var out := FbOf(ds, bridges, fb);
            && (s.x + s.width <= out.width <==> s.x + s.width < LIMIT)
            && (s.y + s.height <= out.height <==> s.y + s.height < LIMIT)
  {
    var gs := GpusOf(ds, fb.gpus);
    BoxIsInside(gpus, fb, gs, s);
    WrapDecides(s.x, s.width, FinalWidth(fb, gs));
    WrapDecides(s.y, s.height, FinalHeight(fb, gs));
  }

  /** One GPU with one port shows a mode in an area at column x, in a framebuffer of the
      size of the mode. */
  function OneOutput(m: Mode, device: string, x: u32): FbNode {
    FbNode(0, m.width, m.height, NoStereo, false,
           [GpuNode(0, [ScanoutNode(0, device, None, Some(m.alias), Some(AreaNode(x, 0, None, None)))])], NoCombiner)
  }

  /** Whatever column the area wraps around from, the configuration is accepted, though
      the area is outside the framebuffer. */
  lemma WrappedAreaAccepted(ds: seq<Display>, gpus: seq<GpuInfo>, bridges: seq<Bridge>, device: string, m: Mode, x: u32)
    requires ModeOf(ds, device, m.alias) == Some(m) && 304 <= m.width && 200 <= m.height
    requires gpus != [] && gpus[0].allowScanOut && |gpus[0].portUsage| > 0
    requires m.width <= gpus[0].maxWidth && m.height <= gpus[0].maxHeight && m.width != UNSPECIFIED && m.height != UNSPECIFIED
    requires x + m.width >= LIMIT
    ensures var fb := OneOutput(m, device, x);
            && Accepts(ds, [], bridges, gpus, [fb])
            && exists s <- AllScanouts(FbOf(ds, bridges, fb).gpus) :: s.x + s.width > FbOf(ds, bridges, fb).width
  {
    var fb := OneOutput(m, device, x);
    var gs, s := GpusOf(ds, fb.gpus), Resolved(ds, fb.gpus[0].scanouts[0]);
    assert GpuOf(ds, fb.gpus[0]).scanouts == [s];
    assert gs == [GpuOf(ds, fb.gpus[0])] == [FbGpu(0, [s])];
    OneScanout(FbGpu(0, [s]), s);
    assert FinalWidth(fb, gs) == m.width && FinalHeight(fb, gs) == m.height;
    assert GpuOk(ds, [], gpus, fb, 0, fb.gpus[0]);
    OneScreen(ds, bridges, fb, FbGpu(0, [s]), s);
    assert s in AllScanouts(FbOf(ds, bridges, fb).gpus);
  }

  lemma OneScanout(g: FbGpu, s: Scanout)
    requires g.scanouts == [s]
    ensures AllScanouts([g]) == [s] && MaxRight([s]) == Right(s) && MaxBottom([s]) == Bottom(s)
  {
    assert [g][..0] == [] && [s][..0] == [];
    assert AllScanouts([]) == [] && MaxRight([]) == 0 && MaxBottom([]) == 0;
  }

  lemma OneScreen(ds: seq<Display>, bridges: seq<Bridge>, fb: FbNode, g: FbGpu, s: Scanout)
    requires FbOf(ds, bridges, fb).gpus == [g] && g.scanouts == [s]
    ensures PortsDiffer(AllUses(Fbs(ds, bridges, [fb])))
  {
    var out := FbOf(ds, bridges, fb);
    assert Fbs(ds, bridges, [fb]) == [out] && [out][..0] == [] && [g][..0] == [];
    assert AllUses([]) == [] && ScreenUses([]) == [];
    assert AllUses([out]) == UsesOf(g) && |UsesOf(g)| == 1;
  }

  /** A mode of 1024 by 768 at column 4294967040 is accepted, and ends beyond every
      framebuffer. */
  lemma AcceptedFarOutside(bridges: seq<Bridge>)
    ensures var m := Mode("m", 1024, 768, "modeline", "");
            var ds := [Display("d", "digital", [m], "m")];
            var gpus := [GpuInfo(true, 8192, 8192, 0, [0], [Scanout(0, 0, 0, 0, 0, "", "", "")])];
            var fb := OneOutput(m, "d", 0xffff_ff00);
            Accepts(ds, [], bridges, gpus, [fb])
            && exists s <- AllScanouts(FbOf(ds, bridges, fb).gpus) :: s.x + s.width > FbOf(ds, bridges, fb).width
  {
    var m := Mode("m", 1024, 768, "modeline", "");
    var ds := [Display("d", "digital", [m], "m")];
    assert FindDisplay(ds, "d") == Some(ds[0]) && FindMode([m], "m") == Some(m);
    WrappedAreaAccepted(ds, [GpuInfo(true, 8192, 8192, 0, [0], [Scanout(0, 0, 0, 0, 0, "", "", "")])], bridges, "d", m, 0xffff_ff00);
  }

  // -------------------------------------------------------------------- size

  /** Accepted framebuffers are at least 304 by 200, and within the limits of all their
      GPUs. */
  lemma SizesInBounds(ds: seq<Display>, ext: seq<OptVal>, bridges: seq<Bridge>, gpus: seq<GpuInfo>, fb: FbNode, k: nat)
    requires FbOk(ds, ext, bridges, gpus, fb) && k < |fb.gpus|
    ensures var out := FbOf(ds, bridges, fb);
            && 304 <= out.width <= gpus[fb.gpus[k].index].maxWidth
            && 200 <= out.height <= gpus[fb.gpus[k].index].maxHeight
  {
    assert GpusOf(ds, fb.gpus)[k] in GpusOf(ds, fb.gpus);
  }

  /** The size of an accepted framebuffer is definite exactly if it was given or the
      screen has a GPU, as long as the limits of the GPUs are definite. */
  lemma SizeDefiniteExactly(ds: seq<Display>, ext: seq<OptVal>, bridges: seq<Bridge>, gpus: seq<GpuInfo>, fb: FbNode)
    requires FbOk(ds, ext, bridges, gpus, fb)
    requires forall g <- gpus :: g.maxWidth != UNSPECIFIED && g.maxHeight != UNSPECIFIED
    ensures FbOf(ds, bridges, fb).width != UNSPECIFIED <==> fb.width != UNSPECIFIED || fb.gpus != []
    ensures FbOf(ds, bridges, fb).height != UNSPECIFIED <==> fb.height != UNSPECIFIED || fb.gpus != []
  {
    if fb.gpus == [] {
      assert GpusOf(ds, fb.gpus) == [] && AllScanouts([]) == [];
    } else {
      assert GpuOk(ds, ext, gpus, fb, 0, fb.gpus[0]);
      SizesInBounds(ds, ext, bridges, gpus, fb, 0);
      assert gpus[fb.gpus[0].index] in gpus;
    }
  }

  /** A screen without GPUs passes with no size at all: the value for no value is taken
      for a width and a height. */
  lemma ScreenWithoutGpusPasses(ds: seq<Display>, ext: seq<OptVal>, bridges: seq<Bridge>, gpus: seq<GpuInfo>, index: u32)
    ensures var fb := FbNode(index, UNSPECIFIED, UNSPECIFIED, NoStereo, false, [], NoCombiner);
            FbOk(ds, ext, bridges, gpus, fb) && FbOf(ds, bridges, fb).width == UNSPECIFIED && FbOf(ds, bridges, fb).height == UNSPECIFIED
  {
    assert GpusOf(ds, []) == [] && AllScanouts([]) == [];
  }

  // ------------------------------------------------------------ stereo, SLI

  /** Active stereo on two outputs of one device in one mode is refused unless the mode
      is a modeline: the exception meant for this case is never taken. */
  lemma SameModeIsNotEnough(ds: seq<Display>, stereo: Stereo, a: Scanout, b: Scanout)
    requires NeedsTiming(stereo) && a.device == b.device && a.kind == b.kind && a.mode == b.mode
    ensures StereoOk(ds, stereo, [a, b]) <==> ModeFor(ds, a).kind == "modeline"
  {
    assert ModeFor(ds, a) == ModeFor(ds, b);
    if StereoOk(ds, stereo, [a, b]) { assert SameTiming(ModeFor(ds, [a, b][0]), ModeFor(ds, [a, b][1])); }
  }

  /** An accepted screen with several GPUs is combined by SLI, is not rotated, and is not
      in passive stereo; one GPU in passive stereo shows one view twice. */
  lemma CombinedScreens(ds: seq<Display>, ext: seq<OptVal>, bridges: seq<Bridge>, gpus: seq<GpuInfo>, fb: FbNode)
    requires FbOk(ds, ext, bridges, gpus, fb)
    ensures |fb.gpus| > 1 ==> FbOf(ds, bridges, fb).bridge.Some? && !fb.rotated && fb.stereo != Passive
    ensures fb.stereo == Passive && fb.gpus != [] ==>
              |fb.gpus| == 1 && var ss := FbOf(ds, bridges, fb).gpus[0].scanouts; |ss| == 2 && SameView(ds, ss[0], ss[1])
  {
    if fb.gpus != [] { assert GpuOk(ds, ext, gpus, fb, 0, fb.gpus[0]); }
  }

  /** In an accepted configuration that uses stereo the composite extension is not on,
      and after validation it is off explicitly. */
  lemma StereoTurnsCompositeOff(ds: seq<Display>, ext: seq<OptVal>, bridges: seq<Bridge>, gpus: seq<GpuInfo>, nodes: seq<FbNode>)
    requires Accepts(ds, ext, bridges, gpus, nodes) && UsesStereo(nodes)
    ensures var ext' := if CompositeNamed(ext) then ext else ext + [OptVal("Composite", "Disable")];
            !CompositeOn(ext') && CompositeNamed(ext')
  {
    var fb :| fb in nodes && fb.stereo != NoStereo && fb.gpus != [];
    assert FbOk(ds, ext, bridges, gpus, fb);
    assert GpuOk(ds, ext, gpus, fb, 0, fb.gpus[0]);
    TurnedOff(ext);
  }

  lemma TurnedOff(ext: seq<OptVal>)
    requires !CompositeOn(ext)
    ensures var o := OptVal("Composite", "Disable"); !CompositeOn(ext + [o]) && CompositeNamed(ext + [o])
  {
    var o := OptVal("Composite", "Disable");
    assert |"Disable"| != |"Enable"|;
    assert o in ext + [o];
    assert forall x :: x in ext + [o] <==> x in ext || x == o;
  }

  // ------------------------------------------------------------ tiled displays

  /** The scanouts of a block of a tiled display, as the validator reads them. */
  function LaidOut(p: Layout.Params, ss: seq<Layout.Scanout>, kind: string, mode: string, device: string): seq<Scanout>
    requires p.tileW < LIMIT && p.tileH < LIMIT && forall s <- ss :: s.x < LIMIT && s.y < LIMIT && s.port < LIMIT
  {
    seq(|ss|, i requires 0 <= i < |ss| =>
      assert ss[i] in ss;
      Scanout(ss[i].x, ss[i].y, p.tileW, p.tileH, ss[i].port, kind, mode, device))
  }

  /** The layout of a tiled display passes the rules on geometry: the box around the
      outputs of a block fits the framebuffer set for it, the outputs use different
      ports, and those of passive stereo show one view. */
  lemma LayoutPasses(p: Layout.Params, r: nat, c: nat, ds: seq<Display>, g: u32, kind: string, mode: string, device: string)
    requires Layout.Valid(p) && r < p.rows && c < p.cols
    requires var shown := Layout.Block(p, r, c);
             shown.width < LIMIT && shown.height < LIMIT && forall s <- shown.scanouts :: s.port < LIMIT
    ensures p.tileW < LIMIT && p.tileH < LIMIT && forall s <- Layout.Block(p, r, c).scanouts :: s.x < LIMIT && s.y < LIMIT
    ensures var shown := Layout.Block(p, r, c);
            var ss := LaidOut(p, shown.scanouts, kind, mode, device);
            && MaxRight(ss) <= shown.width && MaxBottom(ss) <= shown.height
            && PortsDiffer(UsesOf(FbGpu(g, ss))) && 1 <= |ss| <= 2
            && (p.passive ==> StereoOk(ds, Passive, ss))
  {
    var shown := Layout.Block(p, r, c);
    Layout.OutputsFitFramebuffer(p, r, c);
    assert shown.scanouts[0] in shown.scanouts;
    var ss := LaidOut(p, shown.scanouts, kind, mode, device);
    forall i | 0 <= i < |ss|
      ensures ss[i].x + ss[i].width <= shown.width && ss[i].y + ss[i].height <= shown.height
    {
      assert shown.scanouts[i] in shown.scanouts;
    }
    BoxWithin(ss, shown.width, shown.height);
  }

  lemma {:induction false} BoxWithin(ss: seq<Scanout>, width: u32, height: u32)
    requires forall i | 0 <= i < |ss| :: ss[i].x + ss[i].width <= width && ss[i].y + ss[i].height <= height
    ensures MaxRight(ss) <= width && MaxBottom(ss) <= height
  {
    if ss != [] { BoxWithin(ss[..|ss| - 1], width, height); }
  }
}
