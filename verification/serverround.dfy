/** What writing a server tree and reading it back amounts to: which trees can be read
    back at all, what comes back, and when a second writing gives the first again. */
module ServerRoundTrip {
  import opened Resources
  import opened XmlTree
  import opened ServerParts
  import opened ServerTree

  // ------------------------------------------------------------ what comes back

  /** A GPU may go without scanouts unless it says otherwise. */
  function FactsBack(f: GpuFacts): GpuFacts { f.(allowNoScanOut := Some(OrElse(f.allowNoScanOut, true))) }

  function CapsBack(caps: Option<Dict<seq<string>>>): Option<Dict<seq<string>>> { if caps == Some([]) then None else caps }

  /** The shared server comes back if it has an index, and then as the GPU makes it. */
  function GpuBack(g: GpuDesc): GpuDesc
    decreases g
  {
    MakeGpu(CommonBack(g.common), FactsBack(g.facts), CapsBack(g.caps), g.scanouts, g.serverIdx,
            if g.serverIdx.Some? then Some(ServerBack(g.server)) else None)
  }

  function GpusBack(gs: seq<GpuDesc>): seq<GpuDesc>
    decreases gs
  {
    if gs == [] then [] else [GpuBack(gs[0])] + GpusBack(gs[1..])
  }

  function CombinerBack(c: Option<SliDesc>): Option<SliDesc> { if c.Some? then Some(SliBack(c.value, false)) else None }

  function ScreenBack(e: (int, ScreenDesc)): (int, ScreenDesc)
    decreases e
  {
    (e.0, ScreenDesc(e.1.props, CombinerBack(e.1.combiner), GpusBack(e.1.gpus)))
  }

  function ScreensBack(l: seq<(int, ScreenDesc)>): (r: seq<(int, ScreenDesc)>)
    ensures |r| == |l| && forall i | 0 <= i < |l| :: r[i].0 == l[i].0
    decreases l
  {
    if l == [] then [] else [ScreenBack(l[0])] + ScreensBack(l[1..])
  }

  function OptInputBack(d: Option<InputDesc>): Option<InputDesc> { if d.Some? then Some(InputBack(d.value)) else None }

  function HeadBack(s: ServerDesc): ServerDesc {
    s.(common := CommonBack(s.common), keyboard := OptInputBack(s.keyboard), mouse := OptInputBack(s.mouse), screens := [])
  }

  function ServerBack(s: ServerDesc): ServerDesc
    decreases s
  {
    HeadBack(s).(screens := ScreensBack(s.screens))
  }

  // --------------------------------------------------------- reading a GPU back

  lemma LimitFound(a: seq<Xml>, b: seq<Xml>, t: Tag)
    requires AllTagged(a, MaxWidth) && AllTagged(b, MaxHeight)
    ensures Named(a + b, t) == if t == MaxWidth then a else if t == MaxHeight then b else []
  {
    NamedConcat(a, b, t);
    NamedTagged(a, MaxWidth, t);
    NamedTagged(b, MaxHeight, t);
  }

  lemma NeedIntIs(t: Tag, n: Option<int>)
    ensures NeedInt(OptNum(t, n)) == if n.Some? then Got(n.value) else Bad
  {
    if n.Some? { NumIs(t, n.value); }
  }

  /** One limit without the other is written but not read. */
  lemma LimitsRead(f: GpuFacts)
    ensures ReadLimits(WriteLimits(f)) == if f.maxWidth.Some? == f.maxHeight.Some? then Got((f.maxWidth, f.maxHeight)) else Bad
  {
    LimitFound(OptNum(MaxWidth, f.maxWidth), OptNum(MaxHeight, f.maxHeight), MaxWidth);
    LimitFound(OptNum(MaxWidth, f.maxWidth), OptNum(MaxHeight, f.maxHeight), MaxHeight);
    NeedIntIs(MaxWidth, f.maxWidth);
    NeedIntIs(MaxHeight, f.maxHeight);
  }

  ghost predicate ShowsFacts(kids: Tag -> seq<Xml>, f: GpuFacts) {
    && kids(ModelTag) == OptText(ModelTag, f.model) && kids(BusIdTag) == OptText(BusIdTag, f.busID)
    && kids(UseScanOut) == OptFlag(UseScanOut, f.useScanOut) && kids(AllowNoScanOut) == OptFlag(AllowNoScanOut, f.allowNoScanOut)
    && kids(AllowStereo) == OptFlag(AllowStereo, f.allowStereo) && kids(VendorTag) == OptText(VendorTag, f.vendor)
    && kids(Limits) == WriteLimits(f)
  }

  lemma FactsRead(kids: Tag -> seq<Xml>, f: GpuFacts)
    requires ShowsFacts(kids, f)
    ensures ReadFacts(kids) == if FactsOk(f) then Got(FactsBack(f)) else Bad
  {
    TextInIs(ModelTag, f.model);
    TextInIs(BusIdTag, f.busID);
    FlagInIs(UseScanOut, f.useScanOut);
    FlagInIs(AllowNoScanOut, f.allowNoScanOut);
    FlagInIs(AllowStereo, f.allowStereo);
    TextInIs(VendorTag, f.vendor);
    LimitsRead(f);
  }

  ghost predicate ShowsPorts(kids: Tag -> seq<Xml>, g: GpuDesc) {
    && kids(ScanoutTag) == WriteAll(g.scanouts, WriteScanout)
    && kids(ScanoutCaps) == WriteAll(OrElse(g.caps, []), WriteCap)
  }

  lemma DictKept<V>(d: Dict<V>)
    ensures PutAll([], d) == d
  {
    assert [] + d == d;
    PutAllKeeps([], d);
  }

  lemma EachCapRead(caps: Dict<seq<string>>)
    ensures forall c <- caps :: ReadCap(WriteCap(c)) == if CapOk(c) then Got(c) else Bad
  {
    forall c <- caps ensures ReadCap(WriteCap(c)) == if CapOk(c) then Got(c) else Bad { CapRead(c); }
  }

  lemma CapsRead(caps: Dict<seq<string>>)
    ensures ReadEach(WriteAll(caps, WriteCap), ReadCap) == if forall c <- caps :: CapOk(c) then Got(caps) else Bad
  {
    EachCapRead(caps);
    EachRead(caps, WriteCap, ReadCap, CapOk);
  }

  lemma EachScanoutRead(d: Dict<Scanout>)
    ensures forall c <- d :: ReadScanout(WriteScanout(c)) == if ScanoutOk(c) then Got(c) else Bad
  {
    forall c <- d ensures ReadScanout(WriteScanout(c)) == if ScanoutOk(c) then Got(c) else Bad { ScanoutRead(c); }
  }

  lemma ScanoutsRead(d: Dict<Scanout>)
    ensures ReadEach(WriteAll(d, WriteScanout), ReadScanout) == if forall c <- d :: ScanoutOk(c) then Got(d) else Bad
  {
    EachScanoutRead(d);
    EachRead(d, WriteScanout, ReadScanout, ScanoutOk);
  }

  lemma CapsTagged(d: Dict<seq<string>>)
    ensures AllTagged(WriteAll(d, WriteCap), ScanoutCaps)
  {
    var es := WriteAll(d, WriteCap);
    forall e <- es ensures e.tag == ScanoutCaps {
      var i :| 0 <= i < |es| && es[i] == e;
      assert e == WriteCap(d[i]);
    }
  }

  lemma ScanoutsTagged(d: Dict<Scanout>)
    ensures AllTagged(WriteAll(d, WriteScanout), ScanoutTag)
  {
    var es := WriteAll(d, WriteScanout);
    forall e <- es ensures e.tag == ScanoutTag {
      var i :| 0 <= i < |es| && es[i] == e;
      assert e == WriteScanout(d[i]);
    }
  }

  lemma PortsRead(kids: Tag -> seq<Xml>, g: GpuDesc)
    requires ShowsPorts(kids, g)
    ensures ReadPorts(kids) == if PortsOk(g.caps, g.scanouts) then Got((CapsBack(g.caps), g.scanouts)) else Bad
  {
    CapsRead(OrElse(g.caps, []));
    DictKept(OrElse(g.caps, []));
    ScanoutsRead(g.scanouts);
    DictKept(g.scanouts);
  }

  predicate IsFact(t: Tag) {
    t.ModelTag? || t.BusIdTag? || t.UseScanOut? || t.AllowNoScanOut? || t.AllowStereo? || t.VendorTag? || t.Limits?
  }

  lemma CommonFieldTagged(c: Common, t: Tag)
    ensures AllTagged(CommonField(c, t), t) && (!IsCommon(t) ==> CommonField(c, t) == [])
  {
  }

  lemma FactFieldTagged(f: GpuFacts, t: Tag)
    ensures AllTagged(FactField(f, t), t)
    ensures !IsFact(t) ==> FactField(f, t) == []
  {
  }

  lemma GpuFieldTagged(g: GpuDesc, t: Tag)
    ensures AllTagged(GpuField(g, t), t)
  {
    CommonFieldTagged(g.common, t);
    FactFieldTagged(g.facts, t);
    if t == ScanoutCaps { CapsTagged(OrElse(g.caps, [])); }
    if t == ScanoutTag { ScanoutsTagged(g.scanouts); }
  }

  lemma GpuFieldListed(g: GpuDesc, t: Tag)
    requires t !in GpuOrder
    ensures GpuField(g, t) == []
  {
    CommonFieldTagged(g.common, t);
    FactFieldTagged(g.facts, t);
  }

  lemma GpuFound(g: GpuDesc)
    ensures Looks(WriteGpu(g), GpuFields(g)) && WriteGpu(g).tag == GpuTag
  {
    forall t ensures AllTagged(GpuFields(g)(t), t) && (t !in GpuOrder ==> GpuFields(g)(t) == []) {
      GpuFieldTagged(g, t);
      if t !in GpuOrder { GpuFieldListed(g, t); }
      assert GpuFields(g)(t) == GpuField(g, t);
    }
    AllFound(GpuTag, GpuOrder, GpuFields(g));
  }

  lemma GpuKids(g: GpuDesc, kids: Tag -> seq<Xml>)
    requires forall t :: kids(t) == GpuFields(g)(t)
    ensures forall t :: kids(t) == GpuField(g, t)
  {
    forall t ensures kids(t) == GpuField(g, t) { assert kids(t) == GpuFields(g)(t); }
  }

  lemma GpuCommonShown(g: GpuDesc, kids: Tag -> seq<Xml>)
    requires forall t :: kids(t) == GpuField(g, t)
    ensures ShowsCommon(kids, g.common, Index)
  {
  }

  lemma TextFactsShown(f: GpuFacts, kids: Tag -> seq<Xml>)
    requires forall t | IsFact(t) :: kids(t) == FactField(f, t)
    ensures kids(ModelTag) == OptText(ModelTag, f.model) && kids(BusIdTag) == OptText(BusIdTag, f.busID)
    ensures kids(VendorTag) == OptText(VendorTag, f.vendor) && kids(Limits) == WriteLimits(f)
  {
  }

  lemma FlagFactsShown(f: GpuFacts, kids: Tag -> seq<Xml>)
    requires forall t | IsFact(t) :: kids(t) == FactField(f, t)
    ensures kids(UseScanOut) == OptFlag(UseScanOut, f.useScanOut) && kids(AllowNoScanOut) == OptFlag(AllowNoScanOut, f.allowNoScanOut)
    ensures kids(AllowStereo) == OptFlag(AllowStereo, f.allowStereo)
  {
  }

  lemma GpuFactsShown(g: GpuDesc, kids: Tag -> seq<Xml>)
    requires forall t :: kids(t) == GpuField(g, t)
    ensures ShowsFacts(kids, g.facts)
  {
    forall t | IsFact(t) ensures kids(t) == FactField(g.facts, t) {}
    TextFactsShown(g.facts, kids);
    FlagFactsShown(g.facts, kids);
  }

  lemma GpuPortsShown(g: GpuDesc, kids: Tag -> seq<Xml>)
    requires forall t :: kids(t) == GpuField(g, t)
    ensures ShowsPorts(kids, g)
  {
  }

  lemma GpuServerShown(g: GpuDesc, kids: Tag -> seq<Xml>)
    requires forall t :: kids(t) == GpuField(g, t)
    ensures kids(SharedServerIndex) == OptNum(SharedServerIndex, g.serverIdx)
    ensures kids(ServerTag) == if g.serverIdx.Some? then [WriteServer(g.server)] else []
  {
  }

  lemma GpuOfRead(g: GpuDesc, kids: Tag -> seq<Xml>, given: Option<ServerDesc>)
    requires ShowsCommon(kids, g.common, Index) && ShowsFacts(kids, g.facts) && ShowsPorts(kids, g)
    requires kids(SharedServerIndex) == OptNum(SharedServerIndex, g.serverIdx)
    requires given.Some? ==> ServerOk(given.value) && Settled(given.value)
    ensures ReadGpuOf(kids, given) ==
              if CommonOk(g.common) && FactsOk(g.facts) && PortsOk(g.caps, g.scanouts)
              then Got(MakeGpu(CommonBack(g.common), FactsBack(g.facts), CapsBack(g.caps), g.scanouts, g.serverIdx, given))
              else Bad
  {
    CommonRead(kids, g.common, Index);
    FactsRead(kids, g.facts);
    PortsRead(kids, g);
    IntInIs(SharedServerIndex, g.serverIdx);
  }

  lemma GpuKidsRead(g: GpuDesc, kids: Tag -> seq<Xml>, given: Option<ServerDesc>)
    requires forall t :: kids(t) == GpuFields(g)(t)
    requires given.Some? ==> ServerOk(given.value) && Settled(given.value)
    ensures ReadGpuOf(kids, given) ==
              if CommonOk(g.common) && FactsOk(g.facts) && PortsOk(g.caps, g.scanouts)
              then Got(MakeGpu(CommonBack(g.common), FactsBack(g.facts), CapsBack(g.caps), g.scanouts, g.serverIdx, given))
              else Bad
  {
    GpuKids(g, kids);
    GpuCommonShown(g, kids);
    GpuFactsShown(g, kids);
    GpuPortsShown(g, kids);
    GpuServerShown(g, kids);
    GpuOfRead(g, kids, given);
  }

  lemma GpuServers(g: GpuDesc, x: Xml)
    requires Looks(x, GpuFields(g))
    ensures Named(x.kids, ServerTag) == if g.serverIdx.Some? then [WriteServer(g.server)] else []
  {
    assert Kids(x)(ServerTag) == GpuFields(g)(ServerTag) == GpuField(g, ServerTag);
  }

  lemma ReadGpuIs(x: Xml, r: Reading<ServerDesc>)
    requires Named(x.kids, ServerTag) == [] || r == ReadServer(Named(x.kids, ServerTag)[0])
    ensures ReadGpu(x) ==
              if Named(x.kids, ServerTag) == [] then ReadGpuOf(Kids(x), None)
              else if r.Bad? then Bad
              else ReadGpuOf(Kids(x), Some(r.value))
  {
  }

  lemma GpuWithServer(g: GpuDesc, x: Xml)
    requires Looks(x, GpuFields(g)) && g.serverIdx.Some?
    requires ReadServer(WriteServer(g.server)) == if ServerOk(g.server) then Got(ServerBack(g.server)) else Bad
    ensures ReadGpu(x) == if GpuOk(g) then Got(GpuBack(g)) else Bad
  {
    GpuServers(g, x);
    ReadGpuIs(x, ReadServer(WriteServer(g.server)));
    if ServerOk(g.server) { GpuKidsRead(g, Kids(x), Some(ServerBack(g.server))); }
  }

  lemma GpuWithoutServer(g: GpuDesc, x: Xml)
    requires Looks(x, GpuFields(g)) && g.serverIdx.None?
    ensures ReadGpu(x) == if GpuOk(g) then Got(GpuBack(g)) else Bad
  {
    GpuServers(g, x);
    ReadGpuIs(x, Bad);
    GpuKidsRead(g, Kids(x), None);
  }

  // ------------------------------------------------------ reading a screen back

  lemma TaggedCons(x: Xml, es: seq<Xml>, t: Tag)
    requires x.tag == t && AllTagged(es, t)
    ensures AllTagged([x] + es, t)
  {
  }

  lemma {:induction false} GpusTagged(gs: seq<GpuDesc>)
    ensures AllTagged(WriteGpus(gs), GpuTag)
  {
    if gs != [] {
      GpusTagged(gs[1..]);
      TaggedCons(WriteGpu(gs[0]), WriteGpus(gs[1..]), GpuTag);
    }
  }

  lemma {:induction false} ScreensTagged(l: seq<(int, ScreenDesc)>)
    ensures AllTagged(WriteScreens(l), Framebuffer)
  {
    if l != [] {
      ScreensTagged(l[1..]);
      TaggedCons(WriteScreen(l[0]), WriteScreens(l[1..]), Framebuffer);
    }
  }

  lemma ScreenFieldTagged(n: int, props: seq<Xml>, combiner: seq<Xml>, gpus: seq<Xml>, t: Tag)
    requires AllTagged(props, Properties) && AllTagged(combiner, GpuCombiner) && AllTagged(gpus, GpuTag)
    ensures AllTagged(ScreenFieldOf(n, props, combiner, gpus, t), t)
    ensures t !in ScreenOrder ==> ScreenFieldOf(n, props, combiner, gpus, t) == []
  {
  }

  lemma ScreenPartsTagged(e: (int, ScreenDesc))
    ensures AllTagged(WriteProps(e.1.props), Properties) && AllTagged(WriteCombiner(e.1.combiner), GpuCombiner)
    ensures AllTagged(WriteGpus(e.1.gpus), GpuTag)
  {
    GpusTagged(e.1.gpus);
    PropsTagged(e.1.props);
    CombinerTagged(e.1.combiner);
  }

  lemma PropsTagged(p: Props)
    ensures AllTagged(WriteProps(p), Properties)
  {
  }

  lemma CombinerTagged(c: Option<SliDesc>)
    ensures AllTagged(WriteCombiner(c), GpuCombiner)
  {
    if c.Some? {
      var e := WriteCombiner(c)[0];
      assert WriteCombiner(c) == [e];
      OneTagged(e, GpuCombiner);
    }
  }

  lemma OneTagged(e: Xml, t: Tag)
    requires e.tag == t
    ensures AllTagged([e], t)
  {
  }

  lemma ListedOf(f: Tag -> seq<Xml>, n: int, props: seq<Xml>, combiner: seq<Xml>, gpus: seq<Xml>)
    requires forall t :: f(t) == ScreenFieldOf(n, props, combiner, gpus, t)
    requires AllTagged(props, Properties) && AllTagged(combiner, GpuCombiner) && AllTagged(gpus, GpuTag)
    ensures Listed(ScreenOrder, f)
  {
    forall t ensures AllTagged(f(t), t) && (t !in ScreenOrder ==> f(t) == []) {
      ScreenFieldTagged(n, props, combiner, gpus, t);
    }
  }

  lemma ScreenFieldsAre(e: (int, ScreenDesc), t: Tag)
    ensures ScreenFields(e)(t) == ScreenFieldOf(e.0, WriteProps(e.1.props), WriteCombiner(e.1.combiner), WriteGpus(e.1.gpus), t)
  {
    assert ScreenFields(e)(t) == ScreenField(e, t);
  }

  lemma ScreenListed(e: (int, ScreenDesc))
    ensures Listed(ScreenOrder, ScreenFields(e))
  {
    var props, combiner, gpus := WriteProps(e.1.props), WriteCombiner(e.1.combiner), WriteGpus(e.1.gpus);
    ScreenPartsTagged(e);
    forall t ensures ScreenFields(e)(t) == ScreenFieldOf(e.0, props, combiner, gpus, t) { ScreenFieldsAre(e, t); }
    ListedOf(ScreenFields(e), e.0, props, combiner, gpus);
  }

  lemma ScreenFound(e: (int, ScreenDesc))
    ensures Looks(WriteScreen(e), ScreenFields(e)) && WriteScreen(e).tag == Framebuffer
  {
    ScreenListed(e);
    AllFound(Framebuffer, ScreenOrder, ScreenFields(e));
  }

  lemma ScreenShownOf(kids: Tag -> seq<Xml>, n: int, props: seq<Xml>, combiner: seq<Xml>, gpus: seq<Xml>)
    requires forall t :: kids(t) == ScreenFieldOf(n, props, combiner, gpus, t)
    ensures kids(Index) == [Num(Index, n)] && kids(Properties) == props
    ensures kids(GpuCombiner) == combiner && kids(GpuTag) == gpus
  {
  }

  lemma ScreenShown(e: (int, ScreenDesc), x: Xml)
    requires Looks(x, ScreenFields(e))
    ensures Kids(x)(Index) == [Num(Index, e.0)] && Kids(x)(Properties) == WriteProps(e.1.props)
    ensures Kids(x)(GpuCombiner) == WriteCombiner(e.1.combiner) && Kids(x)(GpuTag) == WriteGpus(e.1.gpus)
  {
    forall t ensures Kids(x)(t) == ScreenFieldOf(e.0, WriteProps(e.1.props), WriteCombiner(e.1.combiner), WriteGpus(e.1.gpus), t) {
      assert Kids(x)(t) == ScreenFields(e)(t) == ScreenField(e, t);
    }
    ScreenShownOf(Kids(x), e.0, WriteProps(e.1.props), WriteCombiner(e.1.combiner), WriteGpus(e.1.gpus));
  }

  lemma CombinerFound(s: SliDesc, e: Xml)
    requires e.kids == [WriteSli(s, false)]
    ensures Kids(e)(SliTag) == [WriteSli(s, false)]
  {
    NamedTagged(e.kids, SliTag, SliTag);
  }

  lemma CombinerRead(c: Option<SliDesc>)
    ensures ReadCombiner(WriteCombiner(c)) == if c.None? || SliOk(c.value) then Got(CombinerBack(c)) else Bad
  {
    if c.Some? {
      CombinerFound(c.value, WriteCombiner(c)[0]);
      SliRead(c.value, false);
    }
  }

  /** Only the GPUs among the children are looked at. */
  lemma {:induction false} OnlyGpus(kids: seq<Xml>)
    ensures ReadGpus(kids) == ReadGpus(Named(kids, GpuTag))
  {
    if kids != [] {
      OnlyGpus(kids[1..]);
      var rest := Named(kids[1..], GpuTag);
      if kids[0].tag == GpuTag { assert ([kids[0]] + rest)[0] == kids[0] && ([kids[0]] + rest)[1..] == rest; }
      else { assert Named(kids, GpuTag) == rest; }
    }
  }

  lemma {:induction false} OnlyScreens(kids: seq<Xml>)
    ensures ReadScreens(kids) == ReadScreens(Named(kids, Framebuffer))
  {
    if kids != [] {
      OnlyScreens(kids[1..]);
      var rest := Named(kids[1..], Framebuffer);
      if kids[0].tag == Framebuffer { assert ([kids[0]] + rest)[0] == kids[0] && ([kids[0]] + rest)[1..] == rest; }
      else { assert Named(kids, Framebuffer) == rest; }
    }
  }

  // ------------------------------------------------------ reading a server back

  lemma InputsRead(t: Tag, d: Option<InputDesc>)
    ensures ReadInputs(OptInput(t, d)) == if d.None? || InputOk(d.value) then Got(OptInputBack(d)) else Bad
  {
    if d.Some? { InputRead(t, d.value); }
  }

  lemma ServerFound(s: ServerDesc)
    ensures Looks(WriteServer(s), ServerFields(s))
  {
    forall t ensures AllTagged(ServerFields(s)(t), t) && (t !in ServerOrder ==> ServerFields(s)(t) == []) {
      assert ServerFields(s)(t) == ServerField(s, t);
      CommonFieldTagged(s.common, t);
      ScreensTagged(s.screens);
    }
    AllFound(ServerTag, ServerOrder, ServerFields(s));
  }

  lemma ServerKids(s: ServerDesc, kids: Tag -> seq<Xml>)
    requires forall t :: kids(t) == ServerFields(s)(t)
    ensures forall t :: kids(t) == ServerField(s, t)
  {
    forall t ensures kids(t) == ServerField(s, t) { assert kids(t) == ServerFields(s)(t); }
  }

  lemma ServerCommonShown(s: ServerDesc, kids: Tag -> seq<Xml>)
    requires forall t :: kids(t) == ServerField(s, t)
    ensures ShowsCommon(kids, s.common, ServerNumber)
  {
  }

  ghost predicate ShowsLists(kids: Tag -> seq<Xml>, s: ServerDesc) {
    && kids(CmdArg) == PairElems(CmdArg, s.args) && kids(ModuleTag) == Leaves(ModuleTag, s.modules)
    && kids(ExtensionOption) == PairElems(ExtensionOption, s.options)
  }

  lemma ServerListsShown(s: ServerDesc, kids: Tag -> seq<Xml>)
    requires forall t :: kids(t) == ServerField(s, t)
    ensures ShowsLists(kids, s)
  {
  }

  lemma KeyboardShown(s: ServerDesc, es: seq<Xml>)
    requires es == ServerField(s, KeyboardTag)
    ensures es == OptInput(KeyboardTag, s.keyboard)
  {
  }

  lemma MouseShown(s: ServerDesc, es: seq<Xml>)
    requires es == ServerField(s, MouseTag)
    ensures es == OptInput(MouseTag, s.mouse)
  {
  }

  ghost predicate ShowsKind(kids: Tag -> seq<Xml>, s: ServerDesc) {
    && kids(ServerType) == [Leaf(ServerType, if s.virtual then "virtual" else "normal")]
    && kids(CombineFramebuffers) == if s.combine then [Leaf(CombineFramebuffers, "1")] else []
  }

  lemma ServerKindShown(s: ServerDesc, kids: Tag -> seq<Xml>)
    requires forall t :: kids(t) == ServerField(s, t)
    ensures ShowsKind(kids, s)
  {
    assert kids(ServerType) == ServerField(s, ServerType) && kids(CombineFramebuffers) == ServerField(s, CombineFramebuffers);
  }

  lemma ServerScreensShown(s: ServerDesc, kids: Tag -> seq<Xml>)
    requires forall t :: kids(t) == ServerField(s, t)
    ensures kids(Framebuffer) == WriteScreens(s.screens)
  {
    assert kids(Framebuffer) == ServerField(s, Framebuffer);
  }

  lemma ArgsKept(d: Names<Option<string>>)
    ensures Collect([], d) == d
  {
    assert [] + d == d;
    CollectNames([], d);
  }

  lemma ListsRead(kids: Tag -> seq<Xml>, s: ServerDesc)
    requires ShowsLists(kids, s)
    ensures ReadLists(kids) == if ListsOk(s.args, s.modules, s.options) then Got((s.args, s.modules, s.options)) else Bad
  {
    PairsRead(CmdArg, s.args);
    TextsAre(ModuleTag, s.modules);
    PairsRead(ExtensionOption, s.options);
    ArgsKept(s.args);
    ArgsKept(s.options);
  }

  lemma TypeRead(kids: Tag -> seq<Xml>, s: ServerDesc)
    requires ShowsKind(kids, s)
    ensures ReadType(kids(ServerType)) == Got(s.virtual) && ReadCombine(kids(CombineFramebuffers)) == Got(s.combine)
  {
  }

  lemma HeadRead(kids: Tag -> seq<Xml>, s: ServerDesc)
    requires ShowsCommon(kids, s.common, ServerNumber) && ShowsLists(kids, s) && ShowsKind(kids, s)
    requires kids(KeyboardTag) == OptInput(KeyboardTag, s.keyboard) && kids(MouseTag) == OptInput(MouseTag, s.mouse)
    ensures ReadHead(kids) == if HeadOk(s) then Got(HeadBack(s)) else Bad
  {
    CommonRead(kids, s.common, ServerNumber);
    TypeRead(kids, s);
    ListsRead(kids, s);
    InputsRead(KeyboardTag, s.keyboard);
    InputsRead(MouseTag, s.mouse);
  }

  lemma HeadKidsRead(s: ServerDesc, x: Xml)
    requires Looks(x, ServerFields(s))
    ensures ReadHead(Kids(x)) == if HeadOk(s) then Got(HeadBack(s)) else Bad
  {
    ServerKids(s, Kids(x));
    ServerCommonShown(s, Kids(x));
    ServerListsShown(s, Kids(x));
    ServerKindShown(s, Kids(x));
    KeyboardShown(s, Kids(x)(KeyboardTag));
    MouseShown(s, Kids(x)(MouseTag));
    HeadRead(Kids(x), s);
  }

  lemma ScreensBackIncreasing(l: Dict<ScreenDesc>)
    ensures Increasing(ScreensBack(l))
  {
  }

  // ---------------------------------------------------------- the whole tree

  ghost predicate GpusLook(es: seq<Xml>, gs: seq<GpuDesc>) {
    |es| == |gs| && forall i | 0 <= i < |gs| :: es[i].tag == GpuTag && Looks(es[i], GpuFields(gs[i]))
  }

  lemma GpusLookCons(x: Xml, es: seq<Xml>, gs: seq<GpuDesc>)
    requires gs != [] && x.tag == GpuTag && Looks(x, GpuFields(gs[0])) && GpusLook(es, gs[1..])
    ensures GpusLook([x] + es, gs)
  {
    assert forall i | 0 < i < |gs| :: ([x] + es)[i] == es[i - 1] && gs[i] == gs[1..][i - 1];
  }

  lemma {:induction false} GpusWritten(gs: seq<GpuDesc>)
    ensures GpusLook(WriteGpus(gs), gs)
  {
    if gs != [] {
      GpuFound(gs[0]);
      GpusWritten(gs[1..]);
      GpusLookCons(WriteGpu(gs[0]), WriteGpus(gs[1..]), gs);
    }
  }

  ghost predicate ScreensLook(es: seq<Xml>, l: seq<(int, ScreenDesc)>) {
    |es| == |l| && forall i | 0 <= i < |l| :: es[i].tag == Framebuffer && Looks(es[i], ScreenFields(l[i]))
  }

  lemma ScreensLookCons(x: Xml, es: seq<Xml>, l: seq<(int, ScreenDesc)>)
    requires l != [] && x.tag == Framebuffer && Looks(x, ScreenFields(l[0])) && ScreensLook(es, l[1..])
    ensures ScreensLook([x] + es, l)
  {
    assert forall i | 0 < i < |l| :: ([x] + es)[i] == es[i - 1] && l[i] == l[1..][i - 1];
  }

  lemma {:induction false} ScreensWritten(l: seq<(int, ScreenDesc)>)
    ensures ScreensLook(WriteScreens(l), l)
  {
    if l != [] {
      ScreenFound(l[0]);
      ScreensWritten(l[1..]);
      ScreensLookCons(WriteScreen(l[0]), WriteScreens(l[1..]), l);
    }
  }

  /** What the parts of a list come to. */
  function Join<T>(r: Reading<T>, rest: Reading<seq<T>>): Reading<seq<T>> {
    if r.Bad? || rest.Bad? then Bad else Got([r.value] + rest.value)
  }

  lemma ReadGpusIs(es: seq<Xml>)
    requires es != [] && es[0].tag == GpuTag
    ensures ReadGpus(es) == Join(ReadGpu(es[0]), ReadGpus(es[1..]))
  {
  }

  lemma GpusStep(gs: seq<GpuDesc>, r: Reading<GpuDesc>, rest: Reading<seq<GpuDesc>>)
    requires gs != [] && r == if GpuOk(gs[0]) then Got(GpuBack(gs[0])) else Bad
    requires rest == if forall g <- gs[1..] :: GpuOk(g) then Got(GpusBack(gs[1..])) else Bad
    ensures Join(r, rest) == if forall g <- gs :: GpuOk(g) then Got(GpusBack(gs)) else Bad
  {
    assert gs == [gs[0]] + gs[1..];
  }

  lemma ReadServerIs(x: Xml, head: Reading<ServerDesc>, screens: Reading<seq<(int, ScreenDesc)>>)
    requires head == ReadHead(Kids(x)) && screens == ReadScreens(x.kids)
    ensures ReadServer(x) == MakeServer(head, screens)
  {
  }

  function MakeServer(head: Reading<ServerDesc>, screens: Reading<seq<(int, ScreenDesc)>>): Reading<ServerDesc> {
    if head.Bad? || screens.Bad? || (screens.value != [] && head.value.virtual) then Bad
    else Got(head.value.(screens := PutAll([], screens.value)))
  }

  lemma ServerStep(s: ServerDesc, head: Reading<ServerDesc>, screens: Reading<seq<(int, ScreenDesc)>>)
    requires head == if HeadOk(s) then Got(HeadBack(s)) else Bad
    requires screens == if forall e <- s.screens :: ScreenOk(e.1) then Got(ScreensBack(s.screens)) else Bad
    ensures MakeServer(head, screens) == if ServerOk(s) then Got(ServerBack(s)) else Bad
  {
    assert ScreensBack(s.screens) == [] <==> s.screens == [];
    ScreensBackIncreasing(s.screens);
    DictKept(ScreensBack(s.screens));
  }

  lemma ServerPartsRead(s: ServerDesc, x: Xml, screens: Reading<seq<(int, ScreenDesc)>>)
    requires Looks(x, ServerFields(s)) && screens == ReadScreens(x.kids)
    requires screens == if forall e <- s.screens :: ScreenOk(e.1) then Got(ScreensBack(s.screens)) else Bad
    ensures ReadServer(x) == if ServerOk(s) then Got(ServerBack(s)) else Bad
  {
    HeadKidsRead(s, x);
    ReadServerIs(x, ReadHead(Kids(x)), screens);
    ServerStep(s, ReadHead(Kids(x)), screens);
  }

  lemma ServerScreensLook(s: ServerDesc, x: Xml)
    requires Looks(x, ServerFields(s))
    ensures ScreensLook(Named(x.kids, Framebuffer), s.screens)
  {
    ServerKids(s, Kids(x));
    ServerScreensShown(s, Kids(x));
    ScreensWritten(s.screens);
  }

  /** Reading back what was written, whatever the order of the children: exactly the
      servers described by ServerOk can be read, and ServerBack is what comes back. */
  lemma {:induction false} ServerRead(s: ServerDesc, x: Xml)
    requires Looks(x, ServerFields(s))
    ensures ReadServer(x) == if ServerOk(s) then Got(ServerBack(s)) else Bad
    decreases s
  {
    ServerScreensLook(s, x);
    ScreensRead(s.screens, Named(x.kids, Framebuffer));
    OnlyScreens(x.kids);
    ServerPartsRead(s, x, ReadScreens(x.kids));
  }

  lemma ReadScreensIs(es: seq<Xml>)
    requires es != [] && es[0].tag == Framebuffer
    ensures ReadScreens(es) == Join(ReadScreen(es[0]), ReadScreens(es[1..]))
  {
  }

  lemma ScreensStep(l: seq<(int, ScreenDesc)>, r: Reading<(int, ScreenDesc)>, rest: Reading<seq<(int, ScreenDesc)>>)
    requires l != [] && r == if ScreenOk(l[0].1) then Got(ScreenBack(l[0])) else Bad
    requires rest == if forall e <- l[1..] :: ScreenOk(e.1) then Got(ScreensBack(l[1..])) else Bad
    ensures Join(r, rest) == if forall e <- l :: ScreenOk(e.1) then Got(ScreensBack(l)) else Bad
  {
    assert l == [l[0]] + l[1..];
  }

  lemma {:induction false} ScreensRead(l: seq<(int, ScreenDesc)>, es: seq<Xml>)
    requires ScreensLook(es, l)
    ensures ReadScreens(es) == if forall e <- l :: ScreenOk(e.1) then Got(ScreensBack(l)) else Bad
    decreases l
  {
    if l != [] {
      ScreenRead(l[0], es[0]);
      ScreensLookTail(es, l);
      ScreensRead(l[1..], es[1..]);
      ReadScreensIs(es);
      ScreensStep(l, ReadScreen(es[0]), ReadScreens(es[1..]));
    }
  }

  lemma ScreensLookTail(es: seq<Xml>, l: seq<(int, ScreenDesc)>)
    requires l != [] && ScreensLook(es, l)
    ensures ScreensLook(es[1..], l[1..])
  {
  }

  lemma GpusLookTail(es: seq<Xml>, gs: seq<GpuDesc>)
    requires gs != [] && GpusLook(es, gs)
    ensures GpusLook(es[1..], gs[1..])
  {
  }

  /** A screen is read from what its parts are read as. */
  lemma ScreenOfParts(e: (int, ScreenDesc), x: Xml)
    requires NeedInt(Kids(x)(Index)) == Got(e.0)
    requires ReadProps(Kids(x)(Properties)) == if PropsOk(e.1.props) then Got(e.1.props) else Bad
    requires ReadCombiner(Kids(x)(GpuCombiner)) ==
               if e.1.combiner.None? || SliOk(e.1.combiner.value) then Got(CombinerBack(e.1.combiner)) else Bad
    requires ReadGpus(x.kids) == if forall g <- e.1.gpus :: GpuOk(g) then Got(GpusBack(e.1.gpus)) else Bad
    ensures ReadScreen(x) == if ScreenOk(e.1) then Got(ScreenBack(e)) else Bad
  {
  }

  /** All of a screen but its GPUs is read back; these are read from what was written. */
  lemma ScreenHead(e: (int, ScreenDesc), x: Xml)
    requires Looks(x, ScreenFields(e))
    ensures NeedInt(Kids(x)(Index)) == Got(e.0)
    ensures ReadProps(Kids(x)(Properties)) == if PropsOk(e.1.props) then Got(e.1.props) else Bad
    ensures ReadCombiner(Kids(x)(GpuCombiner)) ==
              if e.1.combiner.None? || SliOk(e.1.combiner.value) then Got(CombinerBack(e.1.combiner)) else Bad
    ensures ReadGpus(x.kids) == ReadGpus(WriteGpus(e.1.gpus))
  {
    ScreenShown(e, x);
    NumIs(Index, e.0);
    PropsRead(e.1.props);
    CombinerRead(e.1.combiner);
    OnlyGpus(x.kids);
  }

  lemma {:induction false} ScreenRead(e: (int, ScreenDesc), x: Xml)
    requires Looks(x, ScreenFields(e))
    ensures ReadScreen(x) == if ScreenOk(e.1) then Got(ScreenBack(e)) else Bad
    decreases e
  {
    ScreenHead(e, x);
    GpusWritten(e.1.gpus);
    GpusRead(e.1.gpus, WriteGpus(e.1.gpus));
    ScreenOfParts(e, x);
  }

  lemma {:induction false} GpusRead(gs: seq<GpuDesc>, es: seq<Xml>)
    requires GpusLook(es, gs)
    ensures ReadGpus(es) == if forall g <- gs :: GpuOk(g) then Got(GpusBack(gs)) else Bad
    decreases gs
  {
    if gs != [] {
      GpuRead(gs[0], es[0]);
      GpusLookTail(es, gs);
      GpusRead(gs[1..], es[1..]);
      ReadGpusIs(es);
      GpusStep(gs, ReadGpu(es[0]), ReadGpus(es[1..]));
    }
  }

  lemma {:induction false} GpuRead(g: GpuDesc, x: Xml)
    requires Looks(x, GpuFields(g))
    ensures ReadGpu(x) == if GpuOk(g) then Got(GpuBack(g)) else Bad
    decreases g
  {
    if g.serverIdx.Some? {
      ServerFound(g.server);
      ServerRead(g.server, WriteServer(g.server));
      GpuWithServer(g, x);
    } else {
      GpuWithoutServer(g, x);
    }
  }
}
