/** What the validator stores for the nodes of a configuration, field by field. */
module XStored {
  import opened Resources
  import opened XConfig
  import opened XValidate

  /** The first display of this name. */
  ghost predicate Named(ds: seq<Display>, name: string, i: nat) {
    i < |ds| && ds[i].name == name && forall j | 0 <= j < i :: ds[j].name != name
  }

  /** The first mode of this name. */
  ghost predicate Aliased(ms: seq<Mode>, alias: string, i: nat) {
    i < |ms| && ms[i].alias == alias && forall j | 0 <= j < i :: ms[j].alias != alias
  }

  lemma {:induction false} DisplayFound(ds: seq<Display>, name: string) returns (i: nat)
    ensures if FindDisplay(ds, name).Some? then Named(ds, name, i) && ds[i] == FindDisplay(ds, name).value
            else forall d <- ds :: d.name != name
  {
    i := 0;
    if ds != [] && ds[0].name != name {
      var j := DisplayFound(ds[1..], name);
      i := j + 1;
      assert ds == [ds[0]] + ds[1..];
      if FindDisplay(ds, name).Some? {
        forall k | 0 <= k < i ensures ds[k].name != name { if k > 0 { assert ds[1..][k - 1] == ds[k]; } }
      }
    }
  }

  lemma {:induction false} ModeFound(ms: seq<Mode>, alias: string) returns (i: nat)
    ensures if FindMode(ms, alias).Some? then Aliased(ms, alias, i) && ms[i] == FindMode(ms, alias).value
            else forall m <- ms :: m.alias != alias
  {
    i := 0;
    if ms != [] && ms[0].alias != alias {
      var j := ModeFound(ms[1..], alias);
      i := j + 1;
      assert ms == [ms[0]] + ms[1..];
      if FindMode(ms, alias).Some? {
        forall k | 0 <= k < i ensures ms[k].alias != alias { if k > 0 { assert ms[1..][k - 1] == ms[k]; } }
      }
    }
  }

  /** The output stored for a node: port and device are as given; kind and mode as given,
      or the display's own; position as given, or the origin; width and height as given,
      or those of the mode. */
  ghost predicate Shows(s: ScanoutNode, d: Display, m: Mode, o: Scanout) {
    && o.port == s.port && o.device == s.device
    && (if s.kind.Some? then o.kind == s.kind.value else o.kind == d.input)
    && (if s.mode.Some? then o.mode == s.mode.value else o.mode == d.defaultMode)
    && (if s.area.Some? then o.x == s.area.value.x && o.y == s.area.value.y else o.x == 0 && o.y == 0)
    && (if s.area.Some? && s.area.value.width.Some? then o.width == s.area.value.width.value else o.width == m.width)
    && (if s.area.Some? && s.area.value.height.Some? then o.height == s.area.value.height.value else o.height == m.height)
  }

  /** There is the display, it has the mode, and that is what is shown. */
  ghost predicate StoredFor(ds: seq<Display>, s: ScanoutNode, o: Scanout) {
    exists i: nat, j: nat :: ShownBy(ds, s, o, i, j)
  }

  ghost predicate ShownBy(ds: seq<Display>, s: ScanoutNode, o: Scanout, i: nat, j: nat) {
    Named(ds, s.device, i) && Aliased(ds[i].modes, o.mode, j) && Shows(s, ds[i], ds[i].modes[j], o)
  }

  /** What is stored for a node that is accepted, and nothing else, shows it. */
  lemma StoredExactly(ds: seq<Display>, s: ScanoutNode, o: Scanout)
    ensures StoredFor(ds, s, o) <==> ModeOf(ds, s.device, ModeName(ds, s)).Some? && o == Resolved(ds, s)
  {
    var i := DisplayFound(ds, s.device);
    var d := FindDisplay(ds, s.device);
    if ModeOf(ds, s.device, ModeName(ds, s)).Some? && o == Resolved(ds, s) {
      var j := ModeFound(d.value.modes, ModeName(ds, s));
      assert ShownBy(ds, s, o, i, j);
    }
    if StoredFor(ds, s, o) {
      var i2: nat, j2: nat :| ShownBy(ds, s, o, i2, j2);
      assert ds[i2] in ds && d.Some?;
      assert i2 == i;
      var j := ModeFound(d.value.modes, o.mode);
      assert ds[i].modes[j2] in d.value.modes;
      assert j2 == j;
    }
  }

  // -------------------------------------------------------------- screens

  ghost predicate GpuStored(ds: seq<Display>, g: GpuNode, o: FbGpu) {
    o.index == g.index && |o.scanouts| == |g.scanouts| && forall j | 0 <= j < |g.scanouts| :: StoredFor(ds, g.scanouts[j], o.scanouts[j])
  }

  /** The far corner of all outputs, with 32-bit sums: none is beyond it, and one reaches
      it in each direction. */
  ghost predicate FarCorner(gs: seq<FbGpu>, right: u32, bottom: u32) {
    && (forall g <- gs, s <- g.scanouts :: (s.x + s.width) % LIMIT <= right && (s.y + s.height) % LIMIT <= bottom)
    && (exists g <- gs, s <- g.scanouts :: (s.x + s.width) % LIMIT == right)
    && (exists g <- gs, s <- g.scanouts :: (s.y + s.height) % LIMIT == bottom)
  }

  ghost predicate HasOutputs(gs: seq<FbGpu>) { exists g <- gs :: g.scanouts != [] }

  /** A screen's size is as given; what is not given is that of the box around its outputs,
      and stays open if it has none. */
  ghost predicate SizeStored(fb: FbNode, o: Framebuffer) {
    && (fb.width != UNSPECIFIED || !HasOutputs(o.gpus) ==> o.width == fb.width)
    && (fb.height != UNSPECIFIED || !HasOutputs(o.gpus) ==> o.height == fb.height)
    && (HasOutputs(o.gpus) ==> exists right: u32, bottom: u32 | FarCorner(o.gpus, right, bottom) ::
          && (fb.width == UNSPECIFIED ==> o.width == right) && (fb.height == UNSPECIFIED ==> o.height == bottom))
  }

  /** The bridge a screen uses, set to the mode asked for. */
  ghost predicate BridgeStored(bridges: seq<Bridge>, fb: FbNode, o: Framebuffer) {
    match fb.combiner
    case Sli(index, mode) =>
      && index < |bridges| && o.bridge.Some? && o.bridge.value.mode == mode
      && o.bridge.value.quadroPlex == bridges[index].quadroPlex
      && o.bridge.value.gpu0 == bridges[index].gpu0 && o.bridge.value.gpu1 == bridges[index].gpu1
    case _ => o.bridge.None?
  }

  /** What is stored for a screen. */
  ghost predicate FbStored(ds: seq<Display>, bridges: seq<Bridge>, fb: FbNode, o: Framebuffer) {
    && o.index == fb.index && o.stereo == fb.stereo && o.rotated == fb.rotated
    && |o.gpus| == |fb.gpus| && (forall k | 0 <= k < |fb.gpus| :: GpuStored(ds, fb.gpus[k], o.gpus[k]))
    && SizeStored(fb, o) && BridgeStored(bridges, fb, o)
  }

  ghost predicate AllStored(ds: seq<Display>, bridges: seq<Bridge>, nodes: seq<FbNode>, out: seq<Framebuffer>) {
    |out| == |nodes| && forall i | 0 <= i < |nodes| :: FbStored(ds, bridges, nodes[i], out[i])
  }

  lemma {:induction false} ScanoutsAre(gs: seq<FbGpu>)
    ensures forall s :: s in AllScanouts(gs) <==> exists g <- gs :: s in g.scanouts
  {
    if gs != [] {
      var n := |gs| - 1;
      ScanoutsAre(gs[..n]);
      assert gs == gs[..n] + [gs[n]];
      assert gs[n] in gs && forall g <- gs[..n] :: g in gs;
      forall s
        ensures s in AllScanouts(gs) <==> exists g <- gs :: s in g.scanouts
      {
        if g :| g in gs && s in g.scanouts { assert g in gs[..n] || g == gs[n]; }
      }
    }
  }

  lemma NoneFarther(gs: seq<FbGpu>)
    requires AllScanouts(gs) != []
    ensures forall g <- gs, s <- g.scanouts ::
              (s.x + s.width) % LIMIT <= MaxRight(AllScanouts(gs)) && (s.y + s.height) % LIMIT <= MaxBottom(AllScanouts(gs))
  {
    var all := AllScanouts(gs);
    ScanoutsAre(gs);
    MaxIsMax(all);
    forall g <- gs, s <- g.scanouts
      ensures (s.x + s.width) % LIMIT <= MaxRight(all) && (s.y + s.height) % LIMIT <= MaxBottom(all)
    {
      assert s in all;
      assert Right(s) <= MaxRight(all) && Bottom(s) <= MaxBottom(all);
    }
  }

  lemma SomeAsFar(gs: seq<FbGpu>)
    requires AllScanouts(gs) != []
    ensures exists g <- gs, s <- g.scanouts :: (s.x + s.width) % LIMIT == MaxRight(AllScanouts(gs))
    ensures exists g <- gs, s <- g.scanouts :: (s.y + s.height) % LIMIT == MaxBottom(AllScanouts(gs))
  {
    var all := AllScanouts(gs);
    ScanoutsAre(gs);
    MaxIsMax(all);
    var r :| r in all && Right(r) == MaxRight(all);
    var b :| b in all && Bottom(b) == MaxBottom(all);
    var gr :| gr in gs && r in gr.scanouts;
    var gb :| gb in gs && b in gb.scanouts;
    assert (r.x + r.width) % LIMIT == MaxRight(all) && (b.y + b.height) % LIMIT == MaxBottom(all);
  }

  lemma CornerIsFar(gs: seq<FbGpu>)
    requires HasOutputs(gs)
    ensures FarCorner(gs, MaxRight(AllScanouts(gs)), MaxBottom(AllScanouts(gs))) && AllScanouts(gs) != []
  {
    ScanoutsAre(gs);
    var g0 :| g0 in gs && g0.scanouts != [];
    assert g0.scanouts[0] in g0.scanouts && g0.scanouts[0] in AllScanouts(gs);
    NoneFarther(gs);
    SomeAsFar(gs);
  }

  lemma NoOutputsNoBox(gs: seq<FbGpu>)
    ensures AllScanouts(gs) != [] <==> HasOutputs(gs)
  {
    ScanoutsPresent(gs);
  }

  lemma SizeIsStored(fb: FbNode, o: Framebuffer)
    requires o.width == FinalWidth(fb, o.gpus) && o.height == FinalHeight(fb, o.gpus)
    ensures SizeStored(fb, o)
  {
    NoOutputsNoBox(o.gpus);
    if HasOutputs(o.gpus) { CornerIsFar(o.gpus); }
  }

  lemma CornerIsOne(gs: seq<FbGpu>, a: u32, b: u32, c: u32, d: u32)
    requires FarCorner(gs, a, b) && FarCorner(gs, c, d)
    ensures a == c && b == d
  {
  }

  /** The size stored is the one the rules are checked with. */
  lemma StoredSize(fb: FbNode, o: Framebuffer)
    requires SizeStored(fb, o)
    ensures o.width == FinalWidth(fb, o.gpus) && o.height == FinalHeight(fb, o.gpus)
  {
    NoOutputsNoBox(o.gpus);
    if HasOutputs(o.gpus) {
      CornerIsFar(o.gpus);
      var right: u32, bottom: u32 :| FarCorner(o.gpus, right, bottom)
        && (fb.width == UNSPECIFIED ==> o.width == right) && (fb.height == UNSPECIFIED ==> o.height == bottom);
      CornerIsOne(o.gpus, right, bottom, MaxRight(AllScanouts(o.gpus)), MaxBottom(AllScanouts(o.gpus)));
    }
  }

  lemma GpuIsStored(ds: seq<Display>, g: GpuNode, o: FbGpu)
    ensures GpuStored(ds, g, o) <==>
              o == GpuOf(ds, g) && forall j | 0 <= j < |g.scanouts| :: ModeOf(ds, g.scanouts[j].device, ModeName(ds, g.scanouts[j])).Some?
  {
    forall j | 0 <= j < |g.scanouts| && j < |o.scanouts|
      ensures StoredFor(ds, g.scanouts[j], o.scanouts[j]) <==>
                ModeOf(ds, g.scanouts[j].device, ModeName(ds, g.scanouts[j])).Some? && o.scanouts[j] == Resolved(ds, g.scanouts[j])
    {
      StoredExactly(ds, g.scanouts[j], o.scanouts[j]);
    }
  }
}
