/** A server with its screens, their GPUs and the GPUs' own shared servers, written as
    a tree of elements and read back. */
module ServerTree {
  import opened Resources
  import opened XmlTree
  import opened ServerParts

  /** What is known of a GPU besides its place: mostly from its template. */
  datatype GpuFacts = GpuFacts(model: Option<string>, busID: Option<string>, useScanOut: Option<bool>, allowNoScanOut: Option<bool>,
                               allowStereo: Option<bool>, vendor: Option<string>, maxWidth: Option<int>, maxHeight: Option<int>)

  /** A GPU holds a description of its shared server, which counts if it has an index. */
  datatype GpuDesc = GpuDesc(common: Common, facts: GpuFacts, caps: Option<Dict<seq<string>>>, scanouts: Dict<Scanout>,
                             serverIdx: Option<int>, server: ServerDesc)

  datatype ScreenDesc = ScreenDesc(props: Props, combiner: Option<SliDesc>, gpus: seq<GpuDesc>)

  datatype ServerDesc = ServerDesc(common: Common, virtual: bool, args: Names<Option<string>>, modules: seq<string>,
                                   options: Names<Option<string>>, keyboard: Option<InputDesc>, mouse: Option<InputDesc>,
                                   screens: Dict<ScreenDesc>, combine: bool)

  // ----------------------------------------------------------------- writing

  function WriteLimits(f: GpuFacts): seq<Xml> {
    if f.maxWidth.None? && f.maxHeight.None? then []
    else [Elem(Limits, "", OptNum(MaxWidth, f.maxWidth) + OptNum(MaxHeight, f.maxHeight))]
  }

  function FactField(f: GpuFacts, t: Tag): seq<Xml> {
    match t
    case ModelTag => OptText(t, f.model)
    case BusIdTag => OptText(t, f.busID)
    case UseScanOut => OptFlag(t, f.useScanOut)
    case AllowNoScanOut => OptFlag(t, f.allowNoScanOut)
    case AllowStereo => OptFlag(t, f.allowStereo)
    case VendorTag => OptText(t, f.vendor)
    case Limits => WriteLimits(f)
    case _ => []
  }

  const GpuOrder: seq<Tag> := [OwnerTag, MaxShareCount, SharedTag, AllocationBias, Hostname, Index, SharedServerIndex, ServerTag,
                               ModelTag, BusIdTag, UseScanOut, AllowNoScanOut, AllowStereo, ScanoutTag, VendorTag, ScanoutCaps, Limits]

  function GpuField(g: GpuDesc, t: Tag): seq<Xml>
    decreases g, 0
  {
    match t
    case Index => OptNum(t, g.common.idx)
    case SharedServerIndex => OptNum(t, g.serverIdx)
    case ServerTag => if g.serverIdx.Some? then [WriteServer(g.server)] else []
    case ScanoutTag => WriteAll(g.scanouts, WriteScanout)
    case ScanoutCaps => if g.caps.Some? then WriteAll(g.caps.value, WriteCap) else []
    case _ => if IsCommon(t) then CommonField(g.common, t) else FactField(g.facts, t)
  }

  predicate IsCommon(t: Tag) { t.OwnerTag? || t.MaxShareCount? || t.SharedTag? || t.AllocationBias? || t.Hostname? }

  function GpuFields(g: GpuDesc): Tag -> seq<Xml>
    decreases g, 1
  {
    t => GpuField(g, t)
  }

  /** A GPU as part of a screen: without the details of its scheduling. */
  function WriteGpu(g: GpuDesc): Xml
    decreases g, 2
  {
    Elem(GpuTag, "", Assemble(GpuOrder, GpuFields(g)))
  }

  function WriteGpus(gs: seq<GpuDesc>): seq<Xml>
    decreases gs
  {
    if gs == [] then [] else [WriteGpu(gs[0])] + WriteGpus(gs[1..])
  }

  const ScreenOrder: seq<Tag> := [Index, Properties, GpuCombiner, GpuTag]

  function WriteCombiner(c: Option<SliDesc>): seq<Xml> {
    if c.Some? then [Elem(GpuCombiner, "", [WriteSli(c.value, false)])] else []
  }

  function ScreenFieldOf(n: int, props: seq<Xml>, combiner: seq<Xml>, gpus: seq<Xml>, t: Tag): seq<Xml> {
    match t
    case Index => [Num(t, n)]
    case Properties => props
    case GpuCombiner => combiner
    case GpuTag => gpus
    case _ => []
  }

  /** A screen is written with its number. */
  function ScreenField(e: (int, ScreenDesc), t: Tag): seq<Xml>
    decreases e, 0
  {
    ScreenFieldOf(e.0, WriteProps(e.1.props), WriteCombiner(e.1.combiner), WriteGpus(e.1.gpus), t)
  }

  function ScreenFields(e: (int, ScreenDesc)): Tag -> seq<Xml>
    decreases e, 1
  {
    t => ScreenField(e, t)
  }

  function WriteScreen(e: (int, ScreenDesc)): Xml
    decreases e, 2
  {
    Elem(Framebuffer, "", Assemble(ScreenOrder, ScreenFields(e)))
  }

  function WriteScreens(l: seq<(int, ScreenDesc)>): seq<Xml>
    decreases l
  {
    if l == [] then [] else [WriteScreen(l[0])] + WriteScreens(l[1..])
  }

  const ServerOrder: seq<Tag> := [OwnerTag, MaxShareCount, SharedTag, AllocationBias, Hostname, ServerNumber, ServerType, CmdArg,
                                  ModuleTag, ExtensionOption, KeyboardTag, MouseTag, Framebuffer, CombineFramebuffers]

  function OptInput(t: Tag, d: Option<InputDesc>): seq<Xml> { if d.Some? then [WriteInput(t, d.value)] else [] }

  function ServerField(s: ServerDesc, t: Tag): seq<Xml>
    decreases s, 0
  {
    match t
    case ServerNumber => OptNum(t, s.common.idx)
    case ServerType => [Leaf(t, if s.virtual then "virtual" else "normal")]
    case CmdArg => PairElems(t, s.args)
    case ModuleTag => Leaves(t, s.modules)
    case ExtensionOption => PairElems(t, s.options)
    case KeyboardTag => OptInput(t, s.keyboard)
    case MouseTag => OptInput(t, s.mouse)
    case Framebuffer => WriteScreens(s.screens)
    case CombineFramebuffers => if s.combine then [Leaf(t, "1")] else []
    case _ => CommonField(s.common, t)
  }

  function ServerFields(s: ServerDesc): Tag -> seq<Xml>
    decreases s, 1
  {
    t => ServerField(s, t)
  }

  function WriteServer(s: ServerDesc): Xml
    decreases s, 2
  {
    Elem(ServerTag, "", Assemble(ServerOrder, ServerFields(s)))
  }

  // ----------------------------------------------------- what can be read back

  predicate FactsOk(f: GpuFacts) {
    f.model != Some("") && f.busID != Some("") && f.vendor != Some("") && (f.maxWidth.Some? <==> f.maxHeight.Some?)
  }

  /** Ports may be numbered up to the number of ports, one more than there are. */
  predicate PortsOk(caps: Option<Dict<seq<string>>>, scanouts: Dict<Scanout>) {
    && (caps.Some? ==> forall c <- caps.value :: CapOk(c))
    && (forall c <- scanouts :: ScanoutOk(c) && (caps.Some? && caps.value != [] ==> c.0 <= |caps.value|))
  }

  predicate GpuOk(g: GpuDesc)
    decreases g
  {
    CommonOk(g.common) && FactsOk(g.facts) && PortsOk(g.caps, g.scanouts) && (g.serverIdx.Some? ==> ServerOk(g.server))
  }

  predicate ScreenOk(s: ScreenDesc)
    decreases s
  {
    PropsOk(s.props) && (s.combiner.Some? ==> SliOk(s.combiner.value)) && s.gpus != [] && forall g <- s.gpus :: GpuOk(g)
  }

  /** Only the Composite extension has an option. */
  predicate OptionsOk(ps: seq<(string, Option<string>)>) { PairsOk(ps) && Valued(ps) && forall p <- ps :: p.0 == "Composite" }

  predicate ListsOk(args: seq<(string, Option<string>)>, modules: seq<string>, options: seq<(string, Option<string>)>) {
    PairsOk(args) && NoneEmpty(modules) && OptionsOk(options)
  }

  predicate HeadOk(s: ServerDesc) {
    && CommonOk(s.common) && ListsOk(s.args, s.modules, s.options)
    && (s.keyboard.Some? ==> InputOk(s.keyboard.value)) && (s.mouse.Some? ==> InputOk(s.mouse.value))
  }

  /** Only a normal server has screens. */
  predicate ServerOk(s: ServerDesc)
    decreases s
  {
    HeadOk(s) && (s.screens != [] ==> !s.virtual) && forall e <- s.screens :: ScreenOk(e.1)
  }

  // ------------------------------------------------- what reading always settles

  predicate OptSettled(d: Option<InputDesc>) { d.Some? ==> d.value.common.bias.Some? }

  /** Every bias that is written is given, and so is whether a GPU needs scanouts. */
  predicate GpuSettled(g: GpuDesc)
    decreases g
  {
    && g.common.bias.Some? && g.facts.allowNoScanOut.Some?
    && (g.serverIdx.Some? ==> g.server.common.bias.Some? && InnerSettled(g.server))
  }

  predicate ScreenSettled(s: ScreenDesc)
    decreases s
  {
    (s.combiner.Some? ==> s.combiner.value.common.bias.Some?) && forall g <- s.gpus :: GpuSettled(g)
  }

  predicate InnerSettled(s: ServerDesc)
    decreases s
  {
    OptSettled(s.keyboard) && OptSettled(s.mouse) && forall e <- s.screens :: ScreenSettled(e.1)
  }

  predicate Settled(s: ServerDesc) { s.common.bias.Some? && InnerSettled(s) }

  // ----------------------------------------------------------------- reading

  /** The server a GPU has before it is given one. */
  function DefaultServer(): ServerDesc {
    ServerDesc(Common([], 1, true, Some(0), None, None), false, [("-dpms", None), ("-s", Some("off")), ("-nolisten", Some("tcp"))],
               [], [("Composite", Some("Disable"))], None, None, [], false)
  }

  /** The server as its GPU makes it when it is given an index. */
  function Configured(s: ServerDesc, c: Common, n: int): ServerDesc {
    s.(common := s.common.(shared := true, host := c.host, limit := c.limit, idx := Some(n)))
  }

  /** A GPU put together from what was read. The index of the shared server, if not
      given, is that of the server given. */
  function MakeGpu(c: Common, f: GpuFacts, caps: Option<Dict<seq<string>>>, scanouts: Dict<Scanout>,
                   serverIdx: Option<int>, given: Option<ServerDesc>): GpuDesc {
    var server := if given.Some? then given.value.(common := given.value.common.(limit := c.limit)) else DefaultServer();
    if serverIdx.Some? then GpuDesc(c, f, caps, scanouts, serverIdx, Configured(server, c, serverIdx.value))
    else GpuDesc(c, f, caps, scanouts, server.common.idx, server)
  }

  lemma ConfiguredOk(s: ServerDesc, c: Common)
    requires ServerOk(s) && CommonOk(c)
    ensures ServerOk(s.(common := c))
  {
    assert HeadOk(s.(common := c));
  }

  lemma DefaultOk()
    ensures ServerOk(DefaultServer())
  {
    assert HeadOk(DefaultServer());
  }

  lemma MakeGpuOk(c: Common, f: GpuFacts, caps: Option<Dict<seq<string>>>, scanouts: Dict<Scanout>,
                  serverIdx: Option<int>, given: Option<ServerDesc>)
    requires CommonOk(c) && FactsOk(f) && PortsOk(caps, scanouts) && c.bias.Some? && f.allowNoScanOut.Some?
    requires given.Some? ==> ServerOk(given.value) && Settled(given.value)
    ensures GpuOk(MakeGpu(c, f, caps, scanouts, serverIdx, given))
    ensures GpuSettled(MakeGpu(c, f, caps, scanouts, serverIdx, given))
  {
    DefaultOk();
    var g := MakeGpu(c, f, caps, scanouts, serverIdx, given);
    ConfiguredOk(if given.Some? then given.value else DefaultServer(), g.server.common);
  }

  /** Both limits are read if there are any. */
  function ReadLimits(es: seq<Xml>): Reading<(Option<int>, Option<int>)> {
    if es == [] then Got((None, None))
    else
      var w :- NeedInt(Kids(es[0])(MaxWidth));
      var h :- NeedInt(Kids(es[0])(MaxHeight));
      Got((Some(w), Some(h)))
  }

  function ReadFacts(kids: Tag -> seq<Xml>): (r: Reading<GpuFacts>)
    ensures r.Got? ==> FactsOk(r.value) && r.value.allowNoScanOut.Some?
  {
    var busID :- TextIn(kids(BusIdTag));
    var model :- TextIn(kids(ModelTag));
    var useScanOut :- FlagIn(kids(UseScanOut));
    var allowNoScanOut :- FlagIn(kids(AllowNoScanOut));
    var allowStereo :- FlagIn(kids(AllowStereo));
    var vendor :- TextIn(kids(VendorTag));
    var limits :- ReadLimits(kids(Limits));
    var f := GpuFacts(model, busID, useScanOut, Some(OrElse(allowNoScanOut, true)), allowStereo, vendor, limits.0, limits.1);
    if FactsOk(f) then Got(f) else Bad
  }

  function ReadPorts(kids: Tag -> seq<Xml>): (r: Reading<(Option<Dict<seq<string>>>, Dict<Scanout>)>)
    ensures r.Got? ==> PortsOk(r.value.0, r.value.1)
  {
    var caps :- ReadEach(kids(ScanoutCaps), ReadCap);
    var ports :- ReadEach(kids(ScanoutTag), ReadScanout);
    var known, scanouts := if caps == [] then None else Some(PutAll([], caps)), PutAll([], ports);
    if PortsOk(known, scanouts) then Got((known, scanouts)) else Bad
  }

  /** A GPU, once its server has been read. */
  function ReadGpuOf(kids: Tag -> seq<Xml>, given: Option<ServerDesc>): (r: Reading<GpuDesc>)
    requires given.Some? ==> ServerOk(given.value) && Settled(given.value)
    ensures r.Got? ==> GpuOk(r.value) && GpuSettled(r.value)
  {
    var c :- ReadCommon(kids, Index);
    var f :- ReadFacts(kids);
    var serverIdx :- IntIn(kids(SharedServerIndex));
    var ports :- ReadPorts(kids);
    MakeGpuOk(c, f, ports.0, ports.1, serverIdx, given);
    Got(MakeGpu(c, f, ports.0, ports.1, serverIdx, given))
  }

  function ReadGpu(e: Xml): (r: Reading<GpuDesc>)
    ensures r.Got? ==> GpuOk(r.value) && GpuSettled(r.value)
    decreases e
  {
    var servers := Named(e.kids, ServerTag);
    NamedAreKids(e.kids, ServerTag);
    if servers == [] then ReadGpuOf(Kids(e), None)
    else
      assert servers[0] in e.kids;
      var server :- ReadServer(servers[0]);
      ReadGpuOf(Kids(e), Some(server))
  }

  function ReadSome<T>(r: Reading<T>): Reading<Option<T>> {
    var v :- r;
    Got(Some(v))
  }

  function ReadGpus(kids: seq<Xml>): (r: Reading<seq<GpuDesc>>)
    ensures r.Got? ==> forall g <- r.value :: GpuOk(g) && GpuSettled(g)
    decreases kids
  {
    if kids == [] then Got([])
    else if kids[0].tag != GpuTag then ReadGpus(kids[1..])
    else
      var g :- ReadGpu(kids[0]);
      var rest :- ReadGpus(kids[1..]);
      Got([g] + rest)
  }

  function ReadCombiner(es: seq<Xml>): (r: Reading<Option<SliDesc>>)
    ensures r.Got? && r.value.Some? ==> SliOk(r.value.value) && r.value.value.common.bias.Some?
  {
    if es == [] then Got(None)
    else
      var slis := Kids(es[0])(SliTag);
      if |es| > 1 || |slis| != 1 then Bad else ReadSome(ReadSli(Kids(slis[0])))
  }

  function ReadScreen(e: Xml): (r: Reading<(int, ScreenDesc)>)
    ensures r.Got? ==> ScreenOk(r.value.1) && ScreenSettled(r.value.1)
    decreases e
  {
    var n :- NeedInt(Kids(e)(Index));
    var props :- ReadProps(Kids(e)(Properties));
    var combiner :- ReadCombiner(Kids(e)(GpuCombiner));
    var gpus :- ReadGpus(e.kids);
    if gpus == [] then Bad else Got((n, ScreenDesc(props, combiner, gpus)))
  }

  function ReadScreens(kids: seq<Xml>): (r: Reading<seq<(int, ScreenDesc)>>)
    ensures r.Got? ==> forall e <- r.value :: ScreenOk(e.1) && ScreenSettled(e.1)
    decreases kids
  {
    if kids == [] then Got([])
    else if kids[0].tag != Framebuffer then ReadScreens(kids[1..])
    else
      var s :- ReadScreen(kids[0]);
      var rest :- ReadScreens(kids[1..]);
      Got([s] + rest)
  }

  function ReadInputs(es: seq<Xml>): (r: Reading<Option<InputDesc>>)
    ensures r.Got? ==> OptSettled(r.value) && (r.value.Some? ==> InputOk(r.value.value))
  {
    if es == [] then Got(None) else ReadSome(ReadInput(Kids(es[0])))
  }

  function ReadType(es: seq<Xml>): Reading<bool> {
    var s :- TextIn(es);
    if s == Some("virtual") then Got(true) else if s == Some("normal") || s == None then Got(false) else Bad
  }

  /** Any value at all combines the framebuffers. */
  function ReadCombine(es: seq<Xml>): Reading<bool> {
    var s :- TextIn(es);
    Got(s.Some?)
  }

  function ReadLists(kids: Tag -> seq<Xml>): (r: Reading<(Names<Option<string>>, seq<string>, Names<Option<string>>)>)
    ensures r.Got? ==> ListsOk(r.value.0, r.value.1, r.value.2)
  {
    var args :- ReadPairs(kids(CmdArg));
    var modules :- Texts(kids(ModuleTag));
    var options :- ReadPairs(kids(ExtensionOption));
    var l := (Collect([], args), modules, Collect([], options));
    if OptionsOk(options) && ListsOk(l.0, l.1, l.2) then Got(l) else Bad
  }

  /** All of a server but its screens. */
  function ReadHead(kids: Tag -> seq<Xml>): (r: Reading<ServerDesc>)
    ensures r.Got? ==> HeadOk(r.value) && Settled(r.value) && r.value.screens == []
  {
    var c :- ReadCommon(kids, ServerNumber);
    var virtual :- ReadType(kids(ServerType));
    var l :- ReadLists(kids);
    var keyboard :- ReadInputs(kids(KeyboardTag));
    var mouse :- ReadInputs(kids(MouseTag));
    var combine :- ReadCombine(kids(CombineFramebuffers));
    Got(ServerDesc(c, virtual, l.0, l.1, l.2, keyboard, mouse, [], combine))
  }

  function ReadServer(e: Xml): (r: Reading<ServerDesc>)
    ensures r.Got? ==> ServerOk(r.value) && Settled(r.value)
    decreases e
  {
    var head :- ReadHead(Kids(e));
    var screens :- ReadScreens(e.kids);
    if screens != [] && head.virtual then Bad else Got(head.(screens := PutAll([], screens)))
  }
}
